# Permission resolution of the IAM resource service, in Dafny

This project models the permission-resolution logic of the IAM service's
`resource` package (`pkg/service/am/resource/module_api_control.go`).
Given a list of role ids, `GetEnableModuleApis` computes the module APIs
those roles may call. It merges two grant paths:

- **Check-all path.** A role–module binding with `is_check_all` set grants
  every API of its module. Those APIs then pass through a portal visibility
  filter.
- **Selective path.** Any other binding grants only the APIs whose action
  bundle has an `enable_action_bundle` row for that binding's `bind_id`.

The two lists are concatenated and reduced to one entry per `api_id`.

In the source, each step is a SQL statement over four tables. Here the
database is the immutable value `Store.Db`. It holds the four tables as
sequences of rows (`Role`, `ModuleApi`, `RoleModuleBinding`,
`EnableActionBundle`). It also holds the set of statements the database
fails to answer (`failing`), which is how storage errors enter the model.
Every query is a pure function returning `Result`:

- `Success(rows)` when the query runs;
- `Failure(Internal(q))` when statement `q` fails;
- `Failure(NotFound(id))` for an unknown role.

Modules:

- `Seqs`: generic selection (`Filter`) and keep-one-per-key (`UniqueBy`) over sequences.
- `Store`: the row datatypes, the database value, errors and `Result`.
- `Queries`: role and binding lookups, the `module_api` selections,
  `GetModuleIds`, and the joins of `module_api` with
  `role_module_binding` (`GetVisibilityModuleApis`, `GetVisibilityModuleIds`).
- `Selective`: the three-table join behind `GetCheckedModuleApis`.
- `Engine`: classification of the bindings, the visibility filter,
  deduplication and `GetEnableModuleApis`, plus lemmas relating resolutions.
- `Scenarios`: concrete resolutions over a four-API store.

Behaviour worth noting, as the code has it:

- Bindings passed by the caller reach only the check-all path (lines
  120-134). `GetCheckedModuleApis` always reads the roles' stored bindings
  (line 141).
- The check-all API query (line 134) and the selective query (line 141) are
  issued even when their input lists are empty. They then select nothing,
  but either can still fail.
- `FilterModuleApisByRoles` is called with the candidate APIs and all loaded
  roles (line 139). Under the rule that an API is visible when some role's
  portal sees it (`Engine.PortalVisible`), an API can be kept for a portal
  of a role that did not grant it. Roles R1 (check-all on M1, portal
  `admin`) and R2 (portal `user`) together therefore also receive `a2`, an
  API of M1 visible only to `user` (`Scenarios.ScenarioBoth`).
- The bodies of `GetRoles`, `GetRole`, `GetRoleModuleBindingsByRoleIds`,
  `FilterModuleApisByRoles` and `models.UniqueModuleApis` are not part of
  this model. This file only calls them and passes their errors on. What
  they do is assumed, not derived from this file:
  - `GetRoles` and `GetRole` fail with `NotFound` on the first unknown id
    (an assumption; see "## Left out").
  - The visibility filter is a parameter `visible(api, roles)`.
  - Deduplication keeps the first entry of every `api_id` and preserves the
    order of the rest (an assumption; see "## Left out").

## Model

| member | source | states |
|---|---|---|
| `Queries.GetRoles` | iam-master/pkg/service/am/resource/module_api_control.go:115-118 | succeeds iff the roles statement is answered and every id has a role row; then returns exactly the stored roles with those ids; a `NotFound` names an id of the list that has no row |
| `Queries.GetRole` | iam-master/pkg/service/am/resource/module_api_control.go:69-72 | succeeds iff the statement is answered and the id has a row, returning a stored role with that id; otherwise `Internal` or `NotFound(id)` |
| `Queries.GetRoleModuleBindingsByRoleIds` | iam-master/pkg/service/am/resource/module_api_control.go:120-124 | on success, exactly the stored bindings whose role is in the list, each with its stored multiplicity; fails only when its statement fails |
| `Queries.GetModuleApisByModuleIds` | iam-master/pkg/service/am/resource/module_api_control.go:150-161 | on success, exactly the stored module APIs whose module id is in the list, with their stored multiplicity; an empty list selects nothing; failure iff its statement fails |
| `Queries.GetModuleApisByActionBundleIds` | iam-master/pkg/service/am/resource/module_api_control.go:18-28 | the same selection keyed on the action bundle id |
| `Queries.GetModuleIds` | iam-master/pkg/service/am/resource/module_api_control.go:30-43 | on success, each module id occurring in `module_api`, exactly once |
| `Queries.InnerJoin` | iam-master/pkg/service/am/resource/module_api_control.go:77-84 | an API is in the join iff it is stored, passes the WHERE condition and joins with some binding |
| `Queries.InnerJoinMultiplicity` | iam-master/pkg/service/am/resource/module_api_control.go:77-84 | without GROUP BY, a selected API occurs once per stored copy and per binding it joins with |
| `Queries.JoinOnRoleModule` | iam-master/pkg/service/am/resource/module_api_control.go:77-84 | joining on the binding's module and filtering on the role and the portal flag keeps exactly the stored visible APIs whose module the role is bound to |
| `Queries.GetVisibilityModuleApis` | iam-master/pkg/service/am/resource/module_api_control.go:68-90 | a failed role lookup is the error, and the API statement is not issued; otherwise an API is returned iff it is stored, its flag for the role's portal is 1 and the role has a binding on its module |
| `Queries.VisibilityModuleApisMultiplicity` | iam-master/pkg/service/am/resource/module_api_control.go:77-84 | without GROUP BY, a returned API occurs once per stored copy and per binding of the role on its module |
| `Queries.GroupedModuleIds` | iam-master/pkg/service/am/resource/module_api_control.go:50-54 | GROUP BY api_id followed by the module id column reports only module ids of the joined rows |
| `Queries.GroupedModuleIdsOfKeyedRows` | iam-master/pkg/service/am/resource/module_api_control.go:54 | for rows drawn from a table keyed by `api_id`, grouping loses no module id of those rows |
| `Queries.JoinOnRole` | iam-master/pkg/service/am/resource/module_api_control.go:49-53 | the join on `role_id` alone keeps every stored visible API as soon as the role has any binding, and none otherwise |
| `Queries.GetVisibilityModuleIdsAsWritten` | iam-master/pkg/service/am/resource/module_api_control.go:45-66 | as written: a module id is returned iff the role has any binding at all and some API of that module is visible to the role's portal |
| `Queries.GetVisibilityModuleIds` | iam-master/pkg/service/am/resource/module_api_control.go:45-66 | corrected join: a module id is returned iff some API of it is visible to the role's portal and the role has a binding on that module |
| `Selective.EnableRows` | iam-master/pkg/service/am/resource/module_api_control.go:101-104 | the API joins with an enablement row iff one has the binding's id and the API's action bundle |
| `Selective.BindingRows` | iam-master/pkg/service/am/resource/module_api_control.go:97-104 | the API survives the binding and enablement joins iff it is selectively granted |
| `Selective.JoinRows` | iam-master/pkg/service/am/resource/module_api_control.go:94-104 | a row of the ungrouped three-table join iff the API is stored and selectively granted |
| `Selective.GetCheckedModuleApis` | iam-master/pkg/service/am/resource/module_api_control.go:92-112 | failure iff its statement fails; on success one row per api id, every row stored and selectively granted, every stored selectively granted API represented by its id |
| `Selective.CheckedModuleApisExact` | iam-master/pkg/service/am/resource/module_api_control.go:92-105 | with `api_id` as key, an API is in the selective result iff it is stored and selectively granted |
| `Selective.BindingRowsCheckAllAppended` | iam-master/pkg/service/am/resource/module_api_control.go:97-100 | a check-all binding appended to the binding table contributes no join row for any API |
| `Selective.JoinRowsCheckAllAppended` | iam-master/pkg/service/am/resource/module_api_control.go:94-104 | the ungrouped three-table join is unchanged by an appended check-all binding |
| `Selective.CheckAllBindingIgnored` | iam-master/pkg/service/am/resource/module_api_control.go:92-112 | adding a check-all binding to the store leaves the selective result equal, on success and on failure alike |
| `Engine.CheckAllModuleIds` | iam-master/pkg/service/am/resource/module_api_control.go:127-132 | a module id is collected iff some check-all binding is on it; no more ids than bindings |
| `Engine.CheckAllModuleIdsAppend` | iam-master/pkg/service/am/resource/module_api_control.go:127-132 | classification distributes over concatenation of binding lists, so ids come out in binding order |
| `Engine.CheckAllModuleIdsStep` | iam-master/pkg/service/am/resource/module_api_control.go:128-131 | one loop step: a check-all binding appends its module id at the end, a selective binding appends nothing |
| `Engine.FilterModuleApisByRoles` | iam-master/pkg/service/am/resource/module_api_control.go:139 | an API survives the filter iff it is a candidate and visible to the roles |
| `Engine.UniqueModuleApis` | iam-master/pkg/service/am/resource/module_api_control.go:147 | the result has pairwise distinct api ids, only input entries, and every api id of the input |
| `Engine.GetEnableModuleApis` | iam-master/pkg/service/am/resource/module_api_control.go:114-148 | fails iff the role lookup, the binding lookup (only when no bindings are supplied), the check-all query or the selective query fails, with the first failing step's error and no list; on success every api id occurs once; every entry is stored and either check-all granted and visible or selectively granted; every such API is represented by its id |
| `Engine.SuppliedBindingsSkipLookup` | iam-master/pkg/service/am/resource/module_api_control.go:120-125 | with bindings supplied, whether the binding lookup would fail makes no difference |
| `Engine.LookupWhenNoneSupplied` | iam-master/pkg/service/am/resource/module_api_control.go:120-125 | with none supplied, the result is that of passing the stored bindings of the roles explicitly |
| `Engine.SelectiveSuppliedBindingIgnored` | iam-master/pkg/service/am/resource/module_api_control.go:127-134 | a selective binding added to the supplied ones changes nothing |
| `Engine.SelectiveGrantsBypassVisibility` | iam-master/pkg/service/am/resource/module_api_control.go:139-147 | when the filter admits nothing, the result is exactly the selective result: selective grants are never filtered |
| `Engine.NoRolesNoApis` | iam-master/pkg/service/am/resource/module_api_control.go:114-148 | an empty role list with nothing supplied resolves to the empty list |
| `Scenarios.ScenarioCheckAll` | iam-master/pkg/service/am/resource/module_api_control.go:127-139 | R1's check-all binding on M1 yields only `a1`, the API visible to portal `admin` |
| `Scenarios.ScenarioSelective` | iam-master/pkg/service/am/resource/module_api_control.go:141-147 | R2's selective binding with BundleX enabled yields `a3`, visible to no portal |
| `Scenarios.ScenarioBoth` | iam-master/pkg/service/am/resource/module_api_control.go:139-147 | R1 and R2 together yield `a1`, `a2` and `a3` |
| `Scenarios.ScenarioUnknownRole` | iam-master/pkg/service/am/resource/module_api_control.go:115-118 | an unknown role id fails the resolution with `NotFound` |
| `Scenarios.VisibilityModuleIdsCrossJoin` | iam-master/pkg/service/am/resource/module_api_control.go:49-55 | the as-written module-id query reports M1 for R2, which has no binding on M1; the corrected query does not |

## Left out

- SQL text construction, gorm query building, the global database handle and row scanning: replaced by pure functions over `Store.Db`. This includes the `rows.Scan` errors the source ignores.
- `logger` calls and `context.Context`: side effects and cancellation plumbing. Cancellation and invalid-input errors are not raised anywhere in `module_api_control.go`, so the model has no such error kinds.
- `gerr` error construction: errors are `NotFound(id)` or `Internal(query)`.
- SQL row order: the database gives none. The model fixes one order (table order, api-major in joins), and the contracts speak of membership and multiplicity only.
- A portal whose visibility column does not exist makes the real statement fail. The model has a set of visible portals per API, so it has no such failure.
- `pkg/manager/grpc_server.go` (gRPC transport) and `pkg/version/gen_helper.go` (build-time script): network, concurrency and I/O.
- Id comparison: every id match (`role_id IN`, the joins on `module_id` and `bind_id`, `GROUP BY module_id` and `GROUP BY api_id`) is exact string equality. This assumes binary-collated id columns. MySQL's default collations ignore case and trailing spaces, so there `r1` would find role `R1`, and a binding on `m1` would join the APIs of `M1`. The model does not promise that behaviour.
- Queries.GetRoles: the `NotFound` rule for an unknown id is an assumption about a helper whose body is not in this file. If `GetRoles` is a plain `role_id IN (?)` selection like lines 150-161, an unknown id is dropped, not reported. `GetEnableModuleApis` would then resolve the known roles instead of failing, and `Engine.FirstError` and `Scenarios.ScenarioUnknownRole` would not hold.
- Engine.UniqueModuleApis: keeping the first entry of each `api_id` in input order is an assumption about `models.UniqueModuleApis`, whose body is not in this file. Distinct ids, input-only entries and kept ids hold for any deduplication. The list equality of `Engine.SelectiveGrantsBypassVisibility` relies on the order-preserving keep-first choice.
- Idempotence: every operation is a pure function, so two resolutions over the same store are equal by construction; no lemma states it.
- Engine.GetEnableModuleApis: completeness is stated by api id. It names the stored row only when `api_id` is unique in `module_api`, the table's key.
- Selective.GetCheckedModuleApis: same. The exact row-level statement is `Selective.CheckedModuleApisExact`, which assumes the key.
- Queries.GetVisibilityModuleIdsAsWritten: exact membership is stated only when `api_id` is unique in `module_api`, because GROUP BY api_id may drop a row of a duplicated id.
- Queries.GetVisibilityModuleIds: same reason.
- Selective.JoinRows: the number of rows per API (one per matching binding and enablement pair) is not stated, because the result is grouped by api id right after.

## Findings

| source | as written | input that shows it | evidently intended | confidence | as-written member | corrected member |
|---|---|---|---|---|---|---|
| iam-master/pkg/service/am/resource/module_api_control.go:53 | `GetVisibilityModuleIds` joins `role_module_binding` only on `role_id = ?`; nothing ties the binding's `module_id` to the API's | role R2 with one binding, on M2; API `a2` of module M1 visible to R2's portal: M1 is returned although R2 has no binding on M1 | join on `role_module_binding.module_id = module_api.module_id` as well, as `GetVisibilityModuleApis` does (lines 80-82) | medium, not executed | `Queries.GetVisibilityModuleIdsAsWritten` (exhibited by `Scenarios.VisibilityModuleIdsCrossJoin`) | `Queries.GetVisibilityModuleIds` |
