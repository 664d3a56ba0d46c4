/** GetEnableModuleApis: the module apis a set of roles may call. Check-all
    bindings grant every api of their module, narrowed by the portal
    visibility filter; selective bindings grant the apis whose action bundle
    is enabled for them; the union is reduced to one entry per api id. */
module Engine {
  import opened Seqs
  import opened Store
  import opened Queries
  import opened Selective

  /** The module id of every check-all binding, in binding order; selective
      bindings contribute nothing. */
  function CheckAllModuleIds(bs: seq<RoleModuleBinding>): (r: seq<string>)
    ensures |r| <= |bs|
    ensures forall m :: m in r ==> exists b :: b in bs && b.isCheckAll && b.moduleId == m
    ensures forall b :: b in bs && b.isCheckAll ==> b.moduleId in r
    decreases |bs|
  {
    if |bs| == 0 then []
    else
      var rest := CheckAllModuleIds(bs[1..]);
      assert forall b :: b in bs ==> b == bs[0] || b in bs[1..];
      if bs[0].isCheckAll then [bs[0].moduleId] + rest else rest
  }

  /** Classification distributes over concatenation of binding lists. */
  lemma {:induction false} CheckAllModuleIdsAppend(a: seq<RoleModuleBinding>, b: seq<RoleModuleBinding>)
    ensures CheckAllModuleIds(a + b) == CheckAllModuleIds(a) + CheckAllModuleIds(b)
    decreases |a|
  {
    if |a| == 0 {
      assert a + b == b;
    } else {
      assert (a + b)[1..] == a[1..] + b;
      CheckAllModuleIdsAppend(a[1..], b);
    }
  }

  /** One step of the classification loop: a check-all binding appends its
      module id at the end, a selective binding appends nothing. */
  lemma CheckAllModuleIdsStep(bs: seq<RoleModuleBinding>, b: RoleModuleBinding)
    ensures CheckAllModuleIds(bs + [b]) ==
      CheckAllModuleIds(bs) + (if b.isCheckAll then [b.moduleId] else [])
  {
    CheckAllModuleIdsAppend(bs, [b]);
    assert CheckAllModuleIds([b]) == (if b.isCheckAll then [b.moduleId] else []) by {
      assert [b][1..] == [];
    }
  }

  /** Some check-all binding is on the api's module. */
  ghost predicate CheckAllGranted(api: ModuleApi, bs: seq<RoleModuleBinding>)
  {
    exists b :: b in bs && b.isCheckAll && b.moduleId == api.moduleId
  }

  /** The portal rule for visibility: the api's flag is 1 for the portal of at
      least one of the roles; with no roles nothing is visible. */
  predicate PortalVisible(api: ModuleApi, roles: seq<Role>)
  {
    exists r :: r in roles && r.portal in api.visiblePortals
  }

  /** FilterModuleApisByRoles: the candidate apis the roles may see. */
  function FilterModuleApisByRoles(apis: seq<ModuleApi>, roles: seq<Role>,
                                   visible: (ModuleApi, seq<Role>) -> bool): (r: seq<ModuleApi>)
    ensures forall a :: a in r <==> a in apis && visible(a, roles)
  {
    Filter(apis, (a: ModuleApi) => visible(a, roles))
  }

  /** UniqueModuleApis: one entry per api id. The helper's body is not in this
      file: keeping the first one met, in input order, is assumed. */
  function UniqueModuleApis(apis: seq<ModuleApi>): (r: seq<ModuleApi>)
    ensures UniqueApiIds(r)
    ensures forall a :: a in r ==> a in apis
    ensures ApiIds(r) == ApiIds(apis)
  {
    UniqueBy(apis, ApiIdOf)
  }

  /** The bindings the check-all path classifies: the caller's when it passes
      any, otherwise the roles' stored bindings. */
  function BindingsUsed(db: Db, roleIds: seq<string>, supplied: seq<RoleModuleBinding>): seq<RoleModuleBinding>
  {
    if |supplied| == 0 then Filter(db.bindings, (b: RoleModuleBinding) => b.roleId in roleIds)
    else supplied
  }

  /** The apis granted to the roles: check-all apis the roles may see, and
      selectively granted apis whatever their visibility. */
  ghost predicate Granted(db: Db, visible: (ModuleApi, seq<Role>) -> bool,
                          roleIds: seq<string>, supplied: seq<RoleModuleBinding>, x: ModuleApi)
  {
    || (CheckAllGranted(x, BindingsUsed(db, roleIds, supplied)) && visible(x, RolesOf(db, roleIds)))
    || SelectivelyGranted(x, db.bindings, db.enables, roleIds)
  }

  /** The first failing step, in the order the steps run. */
  function FirstError(db: Db, roleIds: seq<string>, supplied: seq<RoleModuleBinding>): Error
  {
    if GetRoles(db, roleIds).Failure? then GetRoles(db, roleIds).error
    else if |supplied| == 0 && BindingsQuery in db.failing then Internal(BindingsQuery)
    else if ApisByModuleIdsQuery in db.failing then Internal(ApisByModuleIdsQuery)
    else Internal(CheckedApisQuery)
  }

  /** Resolves the module apis the roles may call. A failing step ends the
      resolution with its error and no list. The selective path always reads
      the stored bindings of `roleIds`; `supplied` only replaces the binding
      lookup of the check-all path. */
  function GetEnableModuleApis(db: Db, visible: (ModuleApi, seq<Role>) -> bool,
                               roleIds: seq<string>, supplied: seq<RoleModuleBinding>): (r: Result<seq<ModuleApi>>)
    ensures r.Failure? <==>
      || GetRoles(db, roleIds).Failure?
      || (|supplied| == 0 && BindingsQuery in db.failing)
      || ApisByModuleIdsQuery in db.failing
      || CheckedApisQuery in db.failing
    ensures r.Failure? ==> r.error == FirstError(db, roleIds, supplied)
    ensures r.Success? ==> UniqueApiIds(r.value)
    ensures r.Success? ==> forall x :: x in r.value ==>
      x in db.moduleApis && Granted(db, visible, roleIds, supplied, x)
    ensures r.Success? ==> forall x :: x in db.moduleApis && Granted(db, visible, roleIds, supplied, x) ==>
      x.apiId in ApiIds(r.value)
  {
    var roles :- GetRoles(db, roleIds);
    var bindings :- if |supplied| == 0 then GetRoleModuleBindingsByRoleIds(db, roleIds)
                    else Success(supplied);
    var checkAllApis :- GetModuleApisByModuleIds(db, CheckAllModuleIds(bindings));
    var filtered := FilterModuleApisByRoles(checkAllApis, roles, visible);
    var checked :- GetCheckedModuleApis(db, roleIds);
    var all := filtered + checked;
    assert bindings == BindingsUsed(db, roleIds, supplied);
    assert roles == RolesOf(db, roleIds);
    assert forall x :: x in all ==> x in db.moduleApis && Granted(db, visible, roleIds, supplied, x);
    assert forall x :: x in db.moduleApis && Granted(db, visible, roleIds, supplied, x) ==>
      x.apiId in ApiIds(all) by {
      forall x | x in db.moduleApis && Granted(db, visible, roleIds, supplied, x)
        ensures x.apiId in ApiIds(all)
      {
        if CheckAllGranted(x, bindings) && visible(x, roles) {
          assert x in filtered;
          assert x in all;
        } else {
          assert x.apiId in ApiIds(checked);
          var y :| y in checked && ApiIdOf(y) == x.apiId;
          assert y in all;
        }
      }
    }
    Success(UniqueModuleApis(all))
  }

  // ---------------------------------------------------------------------------
  // Properties relating several resolutions

  /** Caller-supplied bindings are used as they are: once any is passed, the
      binding lookup is not issued, so whether it would fail is irrelevant. */
  lemma SuppliedBindingsSkipLookup(db: Db, visible: (ModuleApi, seq<Role>) -> bool,
                                   roleIds: seq<string>, supplied: seq<RoleModuleBinding>)
    requires |supplied| > 0
    ensures GetEnableModuleApis(db.(failing := db.failing + {BindingsQuery}), visible, roleIds, supplied) ==
            GetEnableModuleApis(db.(failing := db.failing - {BindingsQuery}), visible, roleIds, supplied)
  {
    var db1 := db.(failing := db.failing + {BindingsQuery});
    var db2 := db.(failing := db.failing - {BindingsQuery});
    assert GetRoles(db1, roleIds) == GetRoles(db2, roleIds);
    assert GetModuleApisByModuleIds(db1, CheckAllModuleIds(supplied)) ==
           GetModuleApisByModuleIds(db2, CheckAllModuleIds(supplied));
    assert GetCheckedModuleApis(db1, roleIds) == GetCheckedModuleApis(db2, roleIds);
  }

  /** With no bindings supplied, the resolution is the one obtained by passing
      the roles' stored bindings explicitly. */
  lemma LookupWhenNoneSupplied(db: Db, visible: (ModuleApi, seq<Role>) -> bool, roleIds: seq<string>)
    requires BindingsQuery !in db.failing
    ensures GetEnableModuleApis(db, visible, roleIds, []) ==
            GetEnableModuleApis(db, visible, roleIds, GetRoleModuleBindingsByRoleIds(db, roleIds).value)
  {
  }

  /** A selective binding added to the supplied list changes nothing. */
  lemma SelectiveSuppliedBindingIgnored(db: Db, visible: (ModuleApi, seq<Role>) -> bool,
                                        roleIds: seq<string>, supplied: seq<RoleModuleBinding>,
                                        b: RoleModuleBinding)
    requires |supplied| > 0
    requires !b.isCheckAll
    ensures GetEnableModuleApis(db, visible, roleIds, supplied + [b]) ==
            GetEnableModuleApis(db, visible, roleIds, supplied)
  {
    CheckAllModuleIdsStep(supplied, b);
    assert CheckAllModuleIds(supplied + [b]) == CheckAllModuleIds(supplied);
    assert BindingsUsed(db, roleIds, supplied + [b]) == supplied + [b];
  }

  /** Selective grants bypass the visibility filter: when the filter admits
      nothing, the result is exactly the selective result. */
  lemma SelectiveGrantsBypassVisibility(db: Db, roleIds: seq<string>, supplied: seq<RoleModuleBinding>)
    ensures var r := GetEnableModuleApis(db, (a: ModuleApi, rs: seq<Role>) => false, roleIds, supplied);
      r.Success? ==> r.value == GetCheckedModuleApis(db, roleIds).value
  {
    var nothing := (a: ModuleApi, rs: seq<Role>) => false;
    if GetEnableModuleApis(db, nothing, roleIds, supplied).Success? {
      var roles := GetRoles(db, roleIds).value;
      var bindings := BindingsUsed(db, roleIds, supplied);
      var checkAllApis := GetModuleApisByModuleIds(db, CheckAllModuleIds(bindings)).value;
      var filtered := FilterModuleApisByRoles(checkAllApis, roles, nothing);
      var checked := GetCheckedModuleApis(db, roleIds).value;
      assert filtered == [];
      assert filtered + checked == checked;
      UniqueByFromDistinct(checked, ApiIdOf, {});
    }
  }

  /** With no role ids and no supplied bindings, nothing is granted. */
  lemma NoRolesNoApis(db: Db, visible: (ModuleApi, seq<Role>) -> bool)
    requires RolesQuery !in db.failing && BindingsQuery !in db.failing
    requires ApisByModuleIdsQuery !in db.failing && CheckedApisQuery !in db.failing
    ensures GetEnableModuleApis(db, visible, [], []) == Success([])
  {
    var res := GetEnableModuleApis(db, visible, [], []);
    assert GetRoles(db, []).Success?;
    var bs := BindingsUsed(db, [], []);
    assert forall b :: b !in bs;
    assert res.Success?;
    assert forall x :: !SelectivelyGranted(x, db.bindings, db.enables, []);
    assert res.value == [];
  }
}
