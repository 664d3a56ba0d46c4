/** The selective grant path: `module_api` joined with the non-check-all
    `role_module_binding` rows of the roles on the module id, joined with
    `enable_action_bundle` on the binding id and the action bundle id, and
    grouped by api id. */
module Selective {
  import opened Seqs
  import opened Store

  /** The binding belongs to one of the roles, is selective and is on the api's module. */
  predicate BindingAdmits(b: RoleModuleBinding, roleIds: seq<string>, api: ModuleApi)
  {
    b.roleId in roleIds && !b.isCheckAll && b.moduleId == api.moduleId
  }

  /** The enablement row switches the api's action bundle on for the binding. */
  predicate EnableAdmits(e: EnableActionBundle, b: RoleModuleBinding, api: ModuleApi)
  {
    e.bindId == b.bindId && e.actionBundleId == api.actionBundleId
  }

  /** Some selective binding of the roles on the api's module has the api's
      action bundle enabled. */
  ghost predicate SelectivelyGranted(api: ModuleApi, bs: seq<RoleModuleBinding>,
                                     es: seq<EnableActionBundle>, roleIds: seq<string>)
  {
    exists b, e :: b in bs && e in es && BindingAdmits(b, roleIds, api) && EnableAdmits(e, b, api)
  }

  /** Rows of `enable_action_bundle` joined with one (api, binding) pair. */
  function EnableRows(api: ModuleApi, b: RoleModuleBinding, es: seq<EnableActionBundle>): (r: seq<ModuleApi>)
    ensures forall x :: x in r ==> x == api
    ensures api in r <==> exists e :: e in es && EnableAdmits(e, b, api)
    decreases |es|
  {
    if |es| == 0 then []
    else
      var rest := EnableRows(api, b, es[1..]);
      assert forall e :: e in es ==> e == es[0] || e in es[1..];
      if EnableAdmits(es[0], b, api) then [api] + rest else rest
  }

  /** Rows of the binding and enablement tables joined with one api. */
  function BindingRows(api: ModuleApi, bs: seq<RoleModuleBinding>, es: seq<EnableActionBundle>,
                       roleIds: seq<string>): (r: seq<ModuleApi>)
    ensures forall x :: x in r ==> x == api
    ensures api in r <==> SelectivelyGranted(api, bs, es, roleIds)
    decreases |bs|
  {
    if |bs| == 0 then []
    else
      var head := if BindingAdmits(bs[0], roleIds, api) then EnableRows(api, bs[0], es) else [];
      var rest := BindingRows(api, bs[1..], es, roleIds);
      assert forall b :: b in bs ==> b == bs[0] || b in bs[1..];
      head + rest
  }

  /** The ungrouped three-table join: every api once per (binding, enablement) pair that admits it. */
  function JoinRows(apis: seq<ModuleApi>, bs: seq<RoleModuleBinding>, es: seq<EnableActionBundle>,
                    roleIds: seq<string>): (r: seq<ModuleApi>)
    ensures forall x :: x in r ==> x in apis && SelectivelyGranted(x, bs, es, roleIds)
    ensures forall x :: x in apis && SelectivelyGranted(x, bs, es, roleIds) ==> x in r
    decreases |apis|
  {
    if |apis| == 0 then []
    else
      var head := BindingRows(apis[0], bs, es, roleIds);
      var rest := JoinRows(apis[1..], bs, es, roleIds);
      assert forall x :: x in apis ==> x == apis[0] || x in apis[1..];
      head + rest
  }

  /** The selectively granted module apis of the roles, one row per api id.
      The statement is issued even for an empty role list (it then selects nothing). */
  function GetCheckedModuleApis(db: Db, roleIds: seq<string>): (r: Result<seq<ModuleApi>>)
    ensures r.Success? <==> CheckedApisQuery !in db.failing
    ensures r.Failure? ==> r.error == Internal(CheckedApisQuery)
    ensures r.Success? ==> UniqueApiIds(r.value)
    ensures r.Success? ==> forall x :: x in r.value ==>
      x in db.moduleApis && SelectivelyGranted(x, db.bindings, db.enables, roleIds)
    ensures r.Success? ==> forall x :: x in db.moduleApis && SelectivelyGranted(x, db.bindings, db.enables, roleIds) ==>
      x.apiId in ApiIds(r.value)
  {
    if CheckedApisQuery in db.failing then Failure(Internal(CheckedApisQuery))
    else
      var rows := JoinRows(db.moduleApis, db.bindings, db.enables, roleIds);
      var grouped := UniqueBy(rows, ApiIdOf);
      assert forall x :: x in rows ==> x.apiId in ApiIds(grouped) by {
        forall x | x in rows
          ensures x.apiId in ApiIds(grouped)
        {
          assert ApiIdOf(x) in Keys(rows, ApiIdOf);
        }
      }
      Success(grouped)
  }

  /** Since api_id is the key of module_api, an api is in the selective result
      exactly when it is stored and selectively granted. */
  lemma CheckedModuleApisExact(db: Db, roleIds: seq<string>, x: ModuleApi)
    requires UniqueApiIds(db.moduleApis)
    requires GetCheckedModuleApis(db, roleIds).Success?
    ensures x in GetCheckedModuleApis(db, roleIds).value <==>
      x in db.moduleApis && SelectivelyGranted(x, db.bindings, db.enables, roleIds)
  {
    var r := GetCheckedModuleApis(db, roleIds).value;
    if x in db.moduleApis && SelectivelyGranted(x, db.bindings, db.enables, roleIds) {
      assert ApiIdOf(x) in Keys(r, ApiIdOf);
      var y :| y in r && ApiIdOf(y) == ApiIdOf(x);
      SameKeySameElement(db.moduleApis, ApiIdOf, x, y);
    }
  }

  /** A check-all binding appended to the binding table adds no row for any api. */
  lemma {:induction false} BindingRowsCheckAllAppended(api: ModuleApi, bs: seq<RoleModuleBinding>,
                                                       es: seq<EnableActionBundle>, roleIds: seq<string>,
                                                       b: RoleModuleBinding)
    requires b.isCheckAll
    ensures BindingRows(api, bs + [b], es, roleIds) == BindingRows(api, bs, es, roleIds)
    decreases |bs|
  {
    if |bs| == 0 {
      assert bs + [b] == [b];
      assert [b][1..] == [];
    } else {
      assert (bs + [b])[0] == bs[0];
      assert (bs + [b])[1..] == bs[1..] + [b];
      BindingRowsCheckAllAppended(api, bs[1..], es, roleIds, b);
    }
  }

  /** The same for the whole ungrouped join. */
  lemma {:induction false} JoinRowsCheckAllAppended(apis: seq<ModuleApi>, bs: seq<RoleModuleBinding>,
                                                    es: seq<EnableActionBundle>, roleIds: seq<string>,
                                                    b: RoleModuleBinding)
    requires b.isCheckAll
    ensures JoinRows(apis, bs + [b], es, roleIds) == JoinRows(apis, bs, es, roleIds)
    decreases |apis|
  {
    if |apis| != 0 {
      BindingRowsCheckAllAppended(apis[0], bs, es, roleIds, b);
      JoinRowsCheckAllAppended(apis[1..], bs, es, roleIds, b);
    }
  }

  /** Adding a check-all binding never changes the selective result, whether
      the statement succeeds or fails. */
  lemma CheckAllBindingIgnored(db: Db, roleIds: seq<string>, b: RoleModuleBinding)
    requires b.isCheckAll
    ensures GetCheckedModuleApis(db.(bindings := db.bindings + [b]), roleIds) == GetCheckedModuleApis(db, roleIds)
  {
    JoinRowsCheckAllAppended(db.moduleApis, db.bindings, db.enables, roleIds, b);
  }
}
