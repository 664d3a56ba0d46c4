/** The four tables the permission engine reads, held as immutable sequences of
    rows, and the error results the queries over them can produce. */
module Store {
  import opened Seqs

  /** A row of `role`. `portal` names the product scope whose visibility flag
      applies to the role. */
  datatype Role = Role(roleId: string, portal: string)

  /** A row of `module_api`. The table has one visibility column per portal,
      named after the portal; `visiblePortals` holds the portals whose column
      is 1. */
  datatype ModuleApi = ModuleApi(
    apiId: string,
    moduleId: string,
    actionBundleId: string,
    visiblePortals: set<string>)

  /** A row of `role_module_binding`; `isCheckAll` is the `is_check_all` column. */
  datatype RoleModuleBinding = RoleModuleBinding(
    bindId: string,
    roleId: string,
    moduleId: string,
    isCheckAll: bool)

  /** A row of `enable_action_bundle`: the bundle is switched on for the binding. */
  datatype EnableActionBundle = EnableActionBundle(bindId: string, actionBundleId: string)

  /** Every statement the engine sends to the database. */
  datatype Query =
    | RolesQuery              // load roles by a list of ids
    | RoleQuery               // load one role by id
    | BindingsQuery           // load role_module_binding rows by role ids
    | ApisByModuleIdsQuery    // module_api rows by module ids
    | ApisByBundleIdsQuery    // module_api rows by action bundle ids
    | CheckedApisQuery        // the selective three-table join
    | VisibleApisQuery        // module_api joined with a role's bindings, portal-filtered
    | ModuleIdsQuery          // distinct module ids of module_api
    | VisibleModuleIdsQuery   // module ids visible to a role

  /** The database: its tables, and the statements it fails to answer
      (lost connection, timeout, malformed row). Which statements fail is
      outside the engine's control, so it is part of the input. */
  datatype Db = Db(
    roles: seq<Role>,
    moduleApis: seq<ModuleApi>,
    bindings: seq<RoleModuleBinding>,
    enables: seq<EnableActionBundle>,
    failing: set<Query>)

  datatype Error =
    | NotFound(id: string)     // a role id with no row
    | Internal(query: Query)   // the database failed to answer `query`

  /** A query outcome: rows, or an error and no rows at all. */
  datatype Result<+T> = Success(value: T) | Failure(error: Error) {
    predicate IsFailure() {
      Failure?
    }

    function PropagateFailure<U>(): (r: Result<U>)
      requires Failure?
      ensures r.Failure? && r.error == error
    {
      Failure(error)
    }

    function Extract(): T
      requires Success?
    {
      value
    }
  }

  function ApiIdOf(a: ModuleApi): string { a.apiId }

  function ModuleIdOf(a: ModuleApi): string { a.moduleId }

  /** The api ids occurring in a list of module apis. */
  function ApiIds(s: seq<ModuleApi>): set<string>
  {
    Keys(s, ApiIdOf)
  }

  /** `api_id` is the key of `module_api`. */
  predicate UniqueApiIds(s: seq<ModuleApi>)
  {
    DistinctKeys(s, ApiIdOf)
  }
}
