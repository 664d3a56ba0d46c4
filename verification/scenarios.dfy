/** Concrete resolutions over a small store: a check-all grant, a selective
    grant, both together and an unknown role, and the input that exposes the
    join of GetVisibilityModuleIds. */
module Scenarios {
  import opened Store
  import opened Queries
  import opened Selective
  import opened Engine

  const r1 := Role("R1", "admin")
  const r2 := Role("R2", "user")

  const a1 := ModuleApi("a1", "M1", "BundleA", {"admin"})
  const a2 := ModuleApi("a2", "M1", "BundleA", {"user"})
  const a3 := ModuleApi("a3", "M2", "BundleX", {})
  const a4 := ModuleApi("a4", "M2", "BundleY", {})

  /** R1 has a check-all binding on M1; R2 a selective binding on M2 with BundleX enabled. */
  const b0 := RoleModuleBinding("B0", "R1", "M1", true)
  const b1 := RoleModuleBinding("B1", "R2", "M2", false)

  const db := Db([r1, r2], [a1, a2, a3, a4], [b0, b1], [EnableActionBundle("B1", "BundleX")], {})

  /** The apis the example role lists are granted: R1's check-all module M1
      shows a1 to R1's portal and a2 to R2's portal; R2's selective binding
      grants a3. */
  predicate Expected(roleIds: seq<string>, x: ModuleApi)
  {
    || ("R1" in roleIds && x == a1)
    || ("R1" in roleIds && "R2" in roleIds && x == a2)
    || ("R2" in roleIds && x == a3)
  }

  lemma RolesRead(roleIds: seq<string>)
    requires forall id :: id in roleIds ==> id == "R1" || id == "R2"
    ensures forall r :: r in RolesOf(db, roleIds) <==>
      (r == r1 && "R1" in roleIds) || (r == r2 && "R2" in roleIds)
  {
    assert db.roles == [r1, r2];
  }

  lemma BindingsRead(roleIds: seq<string>)
    requires forall id :: id in roleIds ==> id == "R1" || id == "R2"
    ensures forall b :: b in BindingsUsed(db, roleIds, []) <==>
      (b == b0 && "R1" in roleIds) || (b == b1 && "R2" in roleIds)
  {
    assert db.bindings == [b0, b1];
  }

  lemma CheckAllPath(roleIds: seq<string>, x: ModuleApi)
    requires forall id :: id in roleIds ==> id == "R1" || id == "R2"
    requires x == a1 || x == a2 || x == a3 || x == a4
    ensures CheckAllGranted(x, BindingsUsed(db, roleIds, [])) && PortalVisible(x, RolesOf(db, roleIds)) <==>
      "R1" in roleIds && (x == a1 || (x == a2 && "R2" in roleIds))
  {
    RolesRead(roleIds);
    BindingsRead(roleIds);
    if "R1" in roleIds {
      assert b0 in BindingsUsed(db, roleIds, []);
      assert r1 in RolesOf(db, roleIds);
      if "R2" in roleIds {
        assert r2 in RolesOf(db, roleIds);
      }
    }
  }

  lemma SelectivePath(roleIds: seq<string>, x: ModuleApi)
    requires x == a1 || x == a2 || x == a3 || x == a4
    ensures SelectivelyGranted(x, db.bindings, db.enables, roleIds) <==> x == a3 && "R2" in roleIds
  {
    var e := EnableActionBundle("B1", "BundleX");
    assert db.enables == [e];
    assert db.bindings == [b0, b1];
    if x == a3 && "R2" in roleIds {
      assert BindingAdmits(b1, roleIds, a3) && EnableAdmits(e, b1, a3);
    }
  }

  /** Which stored apis the example role lists are granted. */
  lemma GrantedApis(roleIds: seq<string>, x: ModuleApi)
    requires forall id :: id in roleIds ==> id == "R1" || id == "R2"
    requires x in db.moduleApis
    ensures Granted(db, PortalVisible, roleIds, [], x) <==> Expected(roleIds, x)
  {
    assert x == a1 || x == a2 || x == a3 || x == a4;
    CheckAllPath(roleIds, x);
    SelectivePath(roleIds, x);
  }

  /** Every api of the resolution is expected. */
  lemma ResolvedOnlyExpected(roleIds: seq<string>, x: ModuleApi)
    requires forall id :: id in roleIds ==> id == "R1" || id == "R2"
    ensures x in GetEnableModuleApis(db, PortalVisible, roleIds, []).value ==> Expected(roleIds, x)
  {
    if x in GetEnableModuleApis(db, PortalVisible, roleIds, []).value {
      GrantedApis(roleIds, x);
    }
  }

  /** Every expected api is in the resolution. */
  lemma ResolvedAllExpected(roleIds: seq<string>, x: ModuleApi)
    requires forall id :: id in roleIds ==> id == "R1" || id == "R2"
    requires Expected(roleIds, x)
    ensures x in GetEnableModuleApis(db, PortalVisible, roleIds, []).value
  {
    Resolves(roleIds);
    var res := GetEnableModuleApis(db, PortalVisible, roleIds, []).value;
    assert x in db.moduleApis;
    GrantedApis(roleIds, x);
    assert x.apiId in ApiIds(res);
    var y :| y in res && ApiIdOf(y) == x.apiId;
    ResolvedOnlyExpected(roleIds, y);
  }

  /** The resolution succeeds and holds exactly the expected apis. */
  lemma ResolvedExactly(roleIds: seq<string>, x: ModuleApi)
    requires forall id :: id in roleIds ==> id == "R1" || id == "R2"
    ensures GetEnableModuleApis(db, PortalVisible, roleIds, []).Success?
    ensures x in GetEnableModuleApis(db, PortalVisible, roleIds, []).value <==> Expected(roleIds, x)
  {
    Resolves(roleIds);
    ResolvedOnlyExpected(roleIds, x);
    if Expected(roleIds, x) {
      ResolvedAllExpected(roleIds, x);
    }
  }

  /** Known role ids and no failing statement: the resolution succeeds. */
  lemma Resolves(roleIds: seq<string>)
    requires forall id :: id in roleIds ==> id == "R1" || id == "R2"
    ensures GetEnableModuleApis(db, PortalVisible, roleIds, []).Success?
  {
    assert HasRole(db.roles, "R1") by { assert r1 in db.roles; }
    assert HasRole(db.roles, "R2") by { assert r2 in db.roles; }
    assert GetRoles(db, roleIds).Success?;
  }

  /** A check-all grant keeps only the apis visible to the role's portal. */
  lemma ScenarioCheckAll()
    ensures GetEnableModuleApis(db, PortalVisible, ["R1"], []).Success?
    ensures forall x :: x in GetEnableModuleApis(db, PortalVisible, ["R1"], []).value <==> x == a1
  {
    Resolves(["R1"]);
    forall x
      ensures x in GetEnableModuleApis(db, PortalVisible, ["R1"], []).value <==> x == a1
    {
      ResolvedExactly(["R1"], x);
      assert "R2" !in ["R1"];
    }
  }

  /** A selective grant bypasses the visibility flags. */
  lemma ScenarioSelective()
    ensures GetEnableModuleApis(db, PortalVisible, ["R2"], []).Success?
    ensures forall x :: x in GetEnableModuleApis(db, PortalVisible, ["R2"], []).value <==> x == a3
  {
    Resolves(["R2"]);
    forall x
      ensures x in GetEnableModuleApis(db, PortalVisible, ["R2"], []).value <==> x == a3
    {
      ResolvedExactly(["R2"], x);
    }
  }

  /** Both grant paths together. The visibility filter sees all the roles at
      once, so R2's portal also exposes a2 of R1's check-all module. */
  lemma ScenarioBoth()
    ensures GetEnableModuleApis(db, PortalVisible, ["R1", "R2"], []).Success?
    ensures forall x :: x in GetEnableModuleApis(db, PortalVisible, ["R1", "R2"], []).value <==>
      x == a1 || x == a2 || x == a3
  {
    Resolves(["R1", "R2"]);
    forall x
      ensures x in GetEnableModuleApis(db, PortalVisible, ["R1", "R2"], []).value <==> x == a1 || x == a2 || x == a3
    {
      ResolvedExactly(["R1", "R2"], x);
    }
  }

  /** An unknown role id fails the whole resolution. */
  lemma ScenarioUnknownRole()
    ensures GetEnableModuleApis(db, PortalVisible, ["R1", "R9"], []) == Failure(NotFound("R9"))
  {
    assert r1 in db.roles;
    assert !HasRole(db.roles, "R9");
    assert GetRoles(db, ["R1", "R9"]).Failure?;
  }

  /** The example store keys module_api by api id. */
  lemma StoreKeyed()
    ensures UniqueApiIds(db.moduleApis)
  {
    assert db.moduleApis == [a1, a2, a3, a4];
    assert "a1" != "a2" && "a1" != "a3" && "a1" != "a4";
    assert "a2" != "a3" && "a2" != "a4" && "a3" != "a4";
  }

  /** R2 has a binding, but none on M1. */
  lemma R2Bindings()
    ensures RoleHasBinding(db.bindings, "R2")
    ensures !ModuleBound(db.bindings, "R2", "M1")
  {
    assert db.bindings == [b0, b1];
    assert b1 in db.bindings;
  }

  /** The as-written module-id query reports M1 for role R2, which has no
      binding on M1; the corrected query does not. */
  lemma VisibilityModuleIdsCrossJoin()
    ensures "M1" in GetVisibilityModuleIdsAsWritten(db, r2).value
    ensures !ModuleBound(db.bindings, "R2", "M1")
    ensures "M1" !in GetVisibilityModuleIds(db, r2).value
  {
    StoreKeyed();
    R2Bindings();
    assert a2 in db.moduleApis && r2.portal in a2.visiblePortals;
    forall a | a in db.moduleApis && a.moduleId == "M1"
      ensures !ModuleBound(db.bindings, r2.roleId, a.moduleId)
    {
    }
  }
}
