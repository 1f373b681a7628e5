# Role administration store of `simple`, modelled in Dafny

This project models the role-administration core of the `simple` Go admin
backend, together with the small pure pieces it relies on.

- **The role store.** It covers create, update, batch delete, get, paged
  listing and the option list for roles, plus the cascade into the user–role
  join table. The source implements it twice:
  - `internal/logic/role/logic.go` runs every check and the write inside one
    transaction;
  - `internal/logic/role/service.go` runs the checks outside and wraps only
    the write in a transaction.

  The database is the `Store` class (module `Tables`). It holds the `roles`
  map (id → role, each with a soft-delete flag), the `userRoles` join rows and
  the id counter. Every default read sees only live rows, because the role
  model carries `gorm.DeletedAt`. A transaction is a snapshot of the store
  that is restored on any error.

  Each operation is a method of `RoleLogic.Logic` or `RoleService.Service`.
  Each method is proved to leave the store in the state, and return the error,
  that one specification function in `RoleRules` gives. The lemmas beside
  those functions state what the operations promise:
  - which error wins;
  - that nothing changes on an error;
  - exactly what a success writes;
  - that live names and codes stay unique;
  - that the two variants agree, and where they differ.

  Infrastructure failures are a parameter, `failing`: the set of statements the
  storage engine rejects in that call. Each one is reported as `ErrServer`,
  as in the source.
- **Generated query helpers** (module `Paging`). This covers
  `FindByPage`/`ScanByPage`, the empty-input guards of `Create`/`Save`, and the
  column map behind `GetFieldByName`, as generated for the `position` table.
- **Error codes** (module `Consts`), the **request validity rules** (module
  `RoleDto`) and the **JSON envelope** helpers (module `Resp`).
- **Code generator naming** (module `Gen`). This covers `toCamelCase`, the
  prefix-stripping model-name strategy and the configuration defaults of
  `NewGenerator`.
- **Logger helpers** (module `Logger`): `parseLevel`, the rotation defaults of
  `getLogWriter`, and `getContextFields`.
- **Database helpers** (module `Database`): `parseLogLevel`, the checks and
  configuration in `Init`, and the tracing plugin's `startSpan`/`endSpan`.

Role update is a patch. The code passes a struct to GORM's `Updates`, which
skips zero-valued fields, so a nil optional field, an empty name or code, or
a zero sort keeps the stored value (`Tables.Patched`,
`RoleRules.UpdateWritesOnlyTheTarget`).

## Model

| member | source | states |
|---|---|---|
| Consts.Code | pkg/consts/error.go:66-125 | Every registered error has a code in the table; only unregistered errors have none. |
| Consts.CodeTableInvertible | pkg/consts/error.go:66-125 | The code of a registered error leads back to that error. |
| Consts.CodesDistinct | pkg/consts/error.go:66-125 | Two registered errors with the same code are the same error, so GC is injective on them. |
| Consts.GC | pkg/consts/error.go:128-136 | 200 exactly for nil; -1 (the code of ErrUnknown) for an unregistered error; otherwise the table's code. |
| Consts.RoleErrorCodes | pkg/consts/error.go:99-103 | Role errors map to 3101–3104, ErrServer to 5001, ErrInvalidParam to 2002, ErrUnauthorized to 1001 and ErrNotFound to 5004. |
| Consts.CodesFollowIdentityNotText | pkg/consts/error.go:128-136 | The lookup is by error identity. A new error carrying a registered error's text gets -1, which no registered error other than ErrUnknown has. |
| Consts.SuperAdminErrorsShareTextNotCode | pkg/consts/error.go:41-109 | ErrRoleSuperAdmin and ErrDepartmentSuperAdmin share a text but keep different codes. |
| Consts.IsSuccess | pkg/consts/error.go:139-141 | True exactly when GC gives 200, that is, exactly for the nil error. |
| Consts.GetMessage | pkg/consts/error.go:144-149 | "ok" for nil, otherwise the error's text. |
| RoleDto.ValidRequestsAreExactly | internal/types/dto/role/role.go:11-47 | The `binding` tags accept exactly: a create with non-empty name and code and a positive sort; an update that is such a create plus a non-zero id; a delete with at least one id; a get with a non-zero id; a list with page at least 1 and size between 10 and 100. |
| RoleDto.ValidSortIsPositive | internal/types/dto/role/role.go:17 | Under the zero-value reading of `required`, `required,min=0` accepts exactly the positive sorts. |
| RoleDto.ValidUpdateExtendsCreate | internal/types/dto/role/role.go:11-29 | A valid update is a valid create plus a non-zero id. |
| Resp.NewResponse | pkg/resp/response.go:30-36 | The envelope carries the given code, data and message, and its trace id is left empty. |
| Resp.NewPageResp | pkg/resp/response.go:38-43 | The page carries the given list and total. |
| Resp.Ok | pkg/resp/response.go:45-47 | HTTP 200 without headers. The body has the nil error's code (what GC gives, 200) and message (what GetMessage gives, "ok"), and carries the data. |
| Resp.OkNil | pkg/resp/response.go:49-51 | HTTP 200 without headers. The body has the nil error's code and message, and no data. |
| Resp.Fail | pkg/resp/response.go:53-56 | An error envelope has HTTP 200, the error's own code (never 200), its text and no data. |
| Resp.Res | pkg/resp/response.go:58-69 | Always HTTP 200. The code is GC(err) and is 200 exactly on success. The message is GetMessage(err). The data is the whole variadic slice when there is no error and the slice is non-empty, and nil otherwise. |
| Resp.DecimalRoundTrip | pkg/resp/response.go:75 | The `expire` header's decimal text reads back to the number it came from. |
| Resp.RefreshToken | pkg/resp/response.go:72-78 | HTTP 401 with code 1001 and ErrUnauthorized's text. It sets the `u`, `refresh` and `expire` headers in that order. |
| Resp.NotFound | pkg/resp/response.go:81-83 | HTTP 200 with code 5004 and ErrNotFound's text, and no data. |
| Paging.Window | internal/types/query/sys_position.gen.go:205-211 | The OFFSET/LIMIT window: at most `limit` rows, taken in order from `offset`. A non-positive offset and a negative limit remove the clauses. Every row in the window comes from the input. |
| Paging.FindByPage | internal/types/query/sys_position.gen.go:321-334 | A failed find gives count 0 and the error. The Count statement is skipped exactly when `0 < limit` and the page is non-empty and short; the count is then offset + len(page). Otherwise the Count decides the count and the error. With a non-negative offset and no failure, the count is the true number of rows. |
| Paging.ShortPageIsLastPage | internal/types/query/sys_position.gen.go:327-330 | When the shortcut fires, the page is the tail of the rows, so offset + len(page) is the true count. |
| Paging.NegativeOffsetUndercounts | internal/types/query/sys_position.gen.go:327-330 | For every negative offset with which the shortcut fires, the page starts at the first row, yet the reported count is the number of matching rows plus the offset, so it falls short by the offset's magnitude. |
| Paging.ScanByPage | internal/types/query/sys_position.gen.go:336-344 | The count comes first. The window is scanned only when the count succeeds, and the count ignores offset and limit. |
| Paging.Create | internal/types/query/sys_position.gen.go:221-226 | No values: nil, and the store is untouched. Otherwise the insert decides. |
| Paging.Save | internal/types/query/sys_position.gen.go:234-239 | No values: nil, and the store is untouched. Otherwise the upsert decides. |
| Paging.ColumnMapHoldsTheTenColumns | internal/types/query/sys_position.gen.go:102-115 | The field map holds exactly the ten column names, each bound to its own column of the current table. |
| Paging.PositionQuery.constructor | internal/types/query/sys_position.gen.go:22-44 | `newPosition` binds the query to its table and fills the field map with the ten columns. |
| Paging.PositionQuery.FillFieldMap | internal/types/query/sys_position.gen.go:102-115 | Rebuilds the map as exactly the ten columns of the current table. |
| Paging.PositionQuery.UpdateTableName | internal/types/query/sys_position.gen.go:75-91 | Rebinds every column to the new table name. |
| Paging.PositionQuery.GetFieldByName | internal/types/query/sys_position.gen.go:93-100 | Found exactly for a registered name, and then it is that name's column. |
| Paging.FieldLookupAfterConstruction | internal/types/query/sys_position.gen.go:22-44 | After `newPosition`, a lookup succeeds exactly for the ten column names. |
| Tables.Contains | internal/logic/role/service.go:238-243 | `LIKE '%x%'` holds exactly when x occurs somewhere in the text. |
| Tables.LiveRows | pkg/database/gen.go:141 | The rows a default read sees are exactly the live (not soft-deleted) roles, in id order. |
| Tables.FirstWhere | internal/types/query/sys_position.gen.go:241-247 | `First()` returns a matching row from the rows read, or nothing exactly when no row matches. |
| Tables.FirstWhereIsFirst | internal/types/query/sys_position.gen.go:241-247 | The row `First()` returns is the first match: every row read before it fails the clause. |
| Tables.FirstWhereHasLeastId | internal/types/query/sys_position.gen.go:241-247 | Over rows in increasing id order, no matching row has a smaller id than the one `First()` returns. |
| Tables.Select | internal/types/query/sys_position.gen.go:265-268 | `Find()` keeps exactly the matching rows, and rows read in increasing id order stay in that order. |
| Tables.CountWhere | internal/logic/role/service.go:62 | `Count()` is the number of rows `Find()` would return. |
| Tables.FirstFindsIffCountPositive | internal/logic/role/service.go:62-69 | The existence checks of the two variants agree: `First()` finds a row exactly when `Count()` is positive. |
| Tables.BeforeIsTotalPreorder | internal/logic/role/service.go:248 | The ORDER BY comparison (sort, then id descending) is total and transitive. |
| Tables.InsertBy | internal/logic/role/service.go:248 | Inserting into an ordered listing keeps the same rows plus the new one. |
| Tables.InsertBySorted | internal/logic/role/service.go:248 | Inserting into a sorted listing keeps it sorted. |
| Tables.SortBy | internal/logic/role/service.go:248 | ORDER BY returns a permutation of the selected rows. |
| Tables.SortBySorted | internal/logic/role/service.go:248 | ORDER BY returns the rows sorted. |
| Tables.Inserted | internal/logic/role/logic.go:70 | The insert advances the counter and adds one row under the counter's old id: the given role with that id, live. Every other row and the join table are kept. On a well-formed store the id was free, and the store stays well-formed. |
| Tables.Patched | internal/logic/role/logic.go:121-131 | Every non-zero patch field is written, and a field changes only to the patch's value. The id and the deleted flag are kept. |
| Tables.PatchIsIdempotent | internal/logic/role/logic.go:131 | Writing the same patch twice leaves the row as writing it once. |
| Tables.ZeroPatchKeepsRow | internal/logic/role/logic.go:121-131 | A patch of only zero values changes nothing. |
| Tables.Updated | internal/logic/role/logic.go:131 | Only the live row with the id is patched. A missing or soft-deleted id changes nothing. The ids, the join table and the counter are kept, and so is well-formedness. |
| Tables.JoinsDeleted | internal/logic/role/logic.go:172-174 | The role table and the counter are kept. The join rows left are exactly those of unlisted roles. Well-formedness is kept. |
| Tables.DeletesCommute | internal/logic/role/service.go:201-212 | Soft-deleting the roles and deleting their join rows touch different tables, so service.go's order (roles first) leaves the same tables as logic.go's (joins first). |
| Tables.SoftDeleted | internal/logic/role/logic.go:180-184 | The soft delete by id keeps every row, the join table and the counter, and well-formedness. It sets the deleted flag on each listed role, changes nothing else in it, and leaves every unlisted role as it was. |
| Tables.WithoutRoles | internal/logic/role/logic.go:172-174 | Deleting join rows by role id keeps exactly the join rows of other roles. |
| Tables.Store.First | internal/types/query/sys_position.gen.go:241-247 | Under the default scope, a row returned is a live role, as stored under its id, that satisfies the clause. |
| Tables.Store.FirstIsLeastLiveMatch | internal/types/query/sys_position.gen.go:241-247 | The row returned is the live match with the smallest id, and nil is returned exactly when no live role matches. |
| Tables.Store.Count | internal/logic/role/service.go:62 | Under the default scope the count is positive exactly when `First()` finds a row. |
| Tables.Store.Find | internal/types/query/sys_position.gen.go:265-268 | The rows come sorted by the order asked for, or in increasing id order without one. |
| Tables.Store.FindIsLiveMatches | internal/types/query/sys_position.gen.go:265-268 | The rows are exactly the live roles, as stored, that satisfy the clause. |
| Tables.Store.Snapshot | internal/logic/role/logic.go:34 | Beginning a transaction records the current state. |
| Tables.Store.Rollback | internal/logic/role/logic.go:34 | Rolling back restores the recorded state. |
| Tables.Store.Insert | internal/logic/role/logic.go:70 | The role is stored under a fresh id and is live; nothing else changes. |
| Tables.Store.UpdateWhereId | internal/logic/role/logic.go:130 | Only the live row with the id is patched. |
| Tables.Store.SoftDeleteWhereIdIn | internal/logic/role/logic.go:180 | Only the listed roles are marked deleted. |
| Tables.Store.DeleteUserRolesWhereRoleIdIn | internal/logic/role/logic.go:172-174 | Only the join rows of the listed roles are removed. |
| RoleRules.CountSeesOnlyLiveRows | pkg/database/gen.go:197-198 | A uniqueness or existence check finds a row exactly when some live role matches; soft-deleted roles never count. |
| RoleRules.Create | internal/logic/role/logic.go:38-75 | Any error writes nothing. Success advances the counter and leaves a live role under the counter's old id, which was free. The store stays well-formed. |
| RoleRules.CreateRefusesTakenName | internal/logic/role/logic.go:39-47 | A name held by a live role gives ErrRoleNameExists and writes nothing, before the code is looked at. |
| RoleRules.CreateRefusesTakenCode | internal/logic/role/logic.go:49-57 | With the name free, a code held by a live role gives ErrRoleCodeExists and writes nothing. |
| RoleRules.CreateAddsOneRole | internal/logic/role/logic.go:38-75 | Create succeeds exactly when every statement runs and both name and code are free among live roles. It then adds exactly one live role with the request's fields under a fresh id, and changes no other row. Any error leaves both tables unchanged. |
| RoleRules.UpdateError | internal/logic/role/logic.go:85-132 | The only errors Update can end with are ErrServer, ErrRoleNotFound, ErrRoleNameExists and ErrRoleCodeExists. |
| RoleRules.Update | internal/logic/role/logic.go:80-139 | Any error writes nothing. No update adds or removes a role, touches the join table or moves the counter. |
| RoleRules.UpdateChecksOfLiveRole | internal/logic/role/logic.go:97-124 | For a live role, Update's error is the checks read over the other live roles: a changed name held by another live role gives ErrRoleNameExists, then likewise for the code, then the write. |
| RoleRules.UpdatePassedChecks | internal/logic/role/logic.go:87-118 | An update that reached the write found the role, and a changed name or code counted zero other live roles. |
| RoleRules.LoadSeesOnlyLiveRole | internal/logic/role/logic.go:87-94 | Loading by id finds the role exactly when it is live, and then finds that role. |
| RoleRules.UpdateMissingRoleIsNotFound | internal/logic/role/logic.go:87-91 | An absent or soft-deleted id gives ErrRoleNotFound and changes nothing. |
| RoleRules.UpdateKeepingNameAndCodeNeverConflicts | internal/logic/role/logic.go:97-118 | Resubmitting the stored name and code never conflicts: neither check runs. |
| RoleRules.UpdateConflictsOnlyWithOtherRoles | internal/logic/role/logic.go:97-118 | Name (then code) conflict exactly when it changes and another live role, never the role itself, holds it. |
| RoleRules.ValidUpdateOverwritesRequiredFields | internal/types/dto/role/role.go:21-29 | For a request that passed validation, the patch always overwrites name, code and sort; only the optional fields can keep their stored values. |
| RoleRules.UpdateWritesOnlyTheTarget | internal/logic/role/logic.go:121-132 | Success rewrites only the row with the id. Zero-valued request fields keep the stored values. Any error changes nothing. |
| RoleRules.DeleteError | internal/logic/role/logic.go:143-187 | The only errors Delete can end with are ErrInvalidParam, ErrServer, ErrRoleNotFound and ErrRoleSuperAdmin. |
| RoleRules.Delete | internal/logic/role/logic.go:143-188 | Any error writes nothing. A delete never removes a role row (it is soft) and never moves the counter. |
| RoleRules.SuperAdminCountMatchesBatch | internal/logic/role/service.go:186-198 | service.go's super-admin count is positive exactly when the found batch holds the super administrator, as logic.go's loop checks. |
| RoleRules.DeleteOfNothing | internal/logic/role/logic.go:144-146 | An empty batch succeeds without a statement in logic.go, and gives ErrInvalidParam in service.go. |
| RoleRules.RemoveFirst | internal/logic/role/logic.go:161-163 | Removing one occurrence shortens the list by one and keeps every other element. |
| RoleRules.NoDuplicatesFitIn | internal/logic/role/logic.go:161-163 | Distinct ids all listed in a batch are no more than the batch. |
| RoleRules.IdsOf | internal/logic/role/logic.go:153 | The ids of the found roles, one per role, in order. |
| RoleRules.FoundIds | internal/logic/role/logic.go:153-163 | The found ids are distinct and are exactly the listed ids that are live. |
| RoleRules.RepeatedIdFindsFewer | internal/logic/role/logic.go:161-163 | A batch that repeats an id finds fewer roles than it lists. |
| RoleRules.MissingIdFindsFewer | internal/logic/role/logic.go:161-163 | A batch that lists a non-live id finds fewer roles than it lists. |
| RoleRules.BatchFindsFewerExactly | internal/logic/role/logic.go:153-163 | The batch read finds fewer roles than ids listed exactly when an id repeats or names no live role. |
| RoleRules.DeleteNotFoundExactly | internal/logic/role/logic.go:149-163 | A non-empty batch gives ErrRoleNotFound exactly when it repeats an id or lists a non-live id, and then writes nothing. |
| RoleRules.DeleteRefusesSuperAdmin | internal/logic/role/logic.go:165-170 | A batch of live distinct roles that holds the super administrator gives ErrRoleSuperAdmin and writes nothing. |
| RoleRules.DeleteCascades | internal/logic/role/logic.go:149-187 | Success removes exactly the join rows of the listed roles and keeps every other join row. It marks exactly the listed roles deleted, and all of them were live and none was the super administrator. Any error changes nothing. |
| RoleRules.DeleteVariantsAgree | internal/logic/role/service.go:170-217 | On a non-empty batch the two variants return the same error and the same tables, unless service.go's extra super-admin count fails. |
| RoleRules.CreateKeepsNamesAndCodesUnique | internal/logic/role/logic.go:38-57 | If no two live roles share a name or a code, that still holds after Create. |
| RoleRules.UpdateSucceeded | internal/logic/role/logic.go:87-118 | A successful update found the role live. No other live role held the new name if the name changed, nor the new code if the code changed. |
| RoleRules.UpdatedRoleStaysDistinct | internal/logic/role/logic.go:97-118 | After a successful update, the role's name and code differ from those of every other live role. |
| RoleRules.UpdateKeepsNamesAndCodesUnique | internal/logic/role/logic.go:97-132 | Live names and codes stay unique across Update. |
| RoleRules.DeleteKeepsNamesAndCodesUnique | internal/logic/role/logic.go:149-187 | Live names and codes stay unique across Delete. |
| RoleRules.Get | internal/logic/role/service.go:221-231 | A role returned is the live role stored under the id. The only errors are ErrServer and ErrRoleNotFound. |
| RoleRules.GetSeesOnlyLiveRoles | internal/logic/role/service.go:221-230 | Get returns the live role with the id, and ErrRoleNotFound exactly when it is absent or soft-deleted. |
| RoleRules.ListOffsetOfValidRequest | internal/types/dto/role/role.go:46-47 | For a valid request, the offset `(Page-1)*Size` is at least 0. |
| RoleRules.Int64 | internal/logic/role/service.go:250 | Wraps a value into the 64-bit range, equal to it modulo 2^64. |
| RoleRules.Int64OfInRange | internal/logic/role/service.go:250 | A value that already fits in 64 bits is kept unchanged. |
| RoleRules.ListOffsetAsWritten | internal/logic/role/service.go:250 | The offset as Go's 64-bit multiplication computes it always lies in the 64-bit range, and equals the true offset whenever page, size and product all fit. |
| RoleRules.ListOffsetAsWrittenWraps | internal/logic/role/service.go:250 | A valid request (page 2^62+1, size 10) wraps the offset to -2^63, and a short page then reports a negative total. |
| RoleRules.WindowOfSorted | internal/logic/role/service.go:248-249 | A window of a sorted listing is sorted and draws only from the listing. |
| RoleRules.ListMatchesAreSelected | internal/logic/role/service.go:237-248 | The listing is sorted. Every listed role is live and passes every filter, and there are as many as Count counts. |
| RoleRules.ListReturnsFilteredSortedWindow | internal/logic/role/service.go:234-260 | A valid listing returns the window at `(Page-1)*Size` of at most Size rows. The rows are the live roles matching name and code as substrings and status exactly, ordered by sort then id descending. The total counts every matching role. |
| RoleRules.List | internal/logic/role/service.go:234-260 | A listing fails only with ErrServer, and succeeds whenever neither of its statements fails. Every listed role is a live role as stored. |
| RoleRules.ListFailsOnlyOnStorageError | internal/logic/role/service.go:250-254 | A listing fails only when one of its statements fails, and then with ErrServer. |
| RoleRules.Project | internal/logic/role/service.go:273-279 | One option per role, in order, carrying only the id and the name. |
| RoleRules.Items | internal/logic/role/service.go:263-280 | The option list fails exactly when its read fails, and then with ErrServer. Otherwise it holds one option per enabled live role. |
| RoleRules.ItemsAreEnabledRolesInSortOrder | internal/logic/role/service.go:263-280 | The options are the live roles with status 1, as many as Count counts, sorted by sort and projected to id and name. A failed read gives ErrServer. |
| RoleRules.LogicCreateAsWritten | internal/logic/role/logic.go:38-75 | logic.go's CreateRole as written: a fault or an error writes nothing. ErrRoleNameExists (ErrRoleCodeExists) comes only when a live role holds the name (code). |
| RoleRules.LogicCreateAsWrittenNeverSucceeds | internal/logic/role/logic.go:39-56 | As written, logic.go's CreateRole never succeeds: a free name dereferences the nil role. |
| RoleRules.LogicUpdateAsWritten | internal/logic/role/logic.go:85-132 | logic.go's UpdateRole as written: a fault or an error writes nothing. A nil dereference happens only for a live role whose name or code changes. |
| RoleRules.LogicUpdateAsWrittenFaultsOnRename | internal/logic/role/logic.go:98-116 | As written, renaming to a free name faults where Update succeeds. |
| RoleLogic.Logic.CreateRole | internal/logic/role/logic.go:32-77 | The new tables and the error are exactly Create's: checks and insert in one transaction, rolled back on error. (the corrected reading of `First()`; see Findings) |
| RoleLogic.Logic.CreateInTransaction | internal/logic/role/logic.go:34-76 | The transaction's function returns Create's error, and on success leaves Create's tables. (the corrected reading of `First()`; see Findings) |
| RoleLogic.Logic.UpdateRole | internal/logic/role/logic.go:80-139 | The new tables and the error are exactly Update's. (the corrected reading of `First()`; see Findings) |
| RoleLogic.Logic.UpdateInTransaction | internal/logic/role/logic.go:82-138 | The transaction's function returns Update's error, and on success leaves Update's tables. (the corrected reading of `First()`; see Findings) |
| RoleLogic.Logic.DeleteRole | internal/logic/role/logic.go:143-188 | The new tables and the error are exactly Delete's for logic.go (an empty batch is a no-op). |
| RoleLogic.Logic.DeleteInTransaction | internal/logic/role/logic.go:149-187 | The loop over the found roles refuses the super administrator. The function returns Delete's error and, on success, leaves Delete's tables. |
| RoleLogic.Logic.GetRole | internal/logic/role/logic.go:192-202 | Returns what Get gives. |
| RoleLogic.Logic.ListRole | internal/logic/role/logic.go:205-231 | Returns what List gives. |
| RoleLogic.Logic.ListRoleItem | internal/logic/role/logic.go:234-244 | Returns what Items gives. |
| RoleService.Service.CreateRole | internal/logic/role/service.go:60-100 | The new tables and the error are exactly Create's: counts outside, insert in a transaction. |
| RoleService.Service.UpdateRole | internal/logic/role/service.go:104-165 | The new tables and the error are exactly Update's. |
| RoleService.Service.DeleteRole | internal/logic/role/service.go:170-217 | The new tables and the error are exactly Delete's for service.go (an empty batch gives ErrInvalidParam). |
| RoleService.Service.GetRole | internal/logic/role/service.go:221-231 | Returns what Get gives. |
| RoleService.Service.ListRole | internal/logic/role/service.go:234-260 | Returns what List gives. |
| RoleService.Service.ListRoleItem | internal/logic/role/service.go:263-280 | The append loop builds exactly Items' options. |
| RoleService.Registry.Role | internal/logic/role/service.go:52-57 | The instance is created on the first call, and every later call returns the same one. |
| RoleService.RoleIsASingleton | internal/logic/role/service.go:52-57 | Two calls return the same instance. |
| Gen.Split | pkg/database/gen.go:79 | `strings.Split` gives one more part than there are separators, no part contains the separator, and joining the parts back gives the input. |
| Gen.CapitalizeAll | pkg/database/gen.go:80-84 | Each part is capitalized in place. A non-empty part has its first character upper-cased; an empty one stays empty. |
| Gen.ToCamelCase | pkg/database/gen.go:77-86 | The in-place loop over the parts computes CamelCase. |
| Gen.ConcatHasNo | pkg/database/gen.go:85 | Joining parts with "" introduces no character the parts lack. |
| Gen.CamelCaseHasNoUnderscore | pkg/database/gen.go:79-85 | The output contains no `_`. |
| Gen.JoinLength | pkg/database/gen.go:79 | Joined length is the parts' total length plus one per separator. |
| Gen.CapitalizedConcatLength | pkg/database/gen.go:80-85 | Capitalizing and concatenating preserves the total length. |
| Gen.CamelCaseLength | pkg/database/gen.go:79-85 | The output length is the input length minus the number of underscores. |
| Gen.SnakeAppend | pkg/database/gen.go:77-86 | The snake-case reading of a concatenation is the concatenation of the readings. |
| Gen.SnakeOfLowerTail | pkg/database/gen.go:80-84 | A lower-case tail reads back unchanged. |
| Gen.SnakeOfCapitalized | pkg/database/gen.go:80-84 | A capitalized lower-case word reads back as the word, behind an underscore unless it is first. |
| Gen.SnakeOfCamelParts | pkg/database/gen.go:79-85 | The capitalized, concatenated parts read back as the parts joined by underscores. |
| Gen.CamelCaseRoundTrip | pkg/database/gen.go:77-86 | For a snake_case name of lower-case words, converting back to snake case recovers the input. |
| Gen.ModelName | pkg/database/gen.go:89-97 | The model name never contains `_`. |
| Gen.ModelNameStripsOnlyAPresentPrefix | pkg/database/gen.go:89-97 | The prefix is stripped only when it is non-empty and present. The model name never contains `_`. |
| Gen.SplitWord | pkg/database/gen.go:79 | A word without the separator splits to itself, and a leading word splits off. |
| Gen.SplitTwoWords | pkg/database/gen.go:79 | Two words without underscores, joined by `_`, split back into exactly those two words. |
| Gen.CamelCaseOfTwoWords | pkg/database/gen.go:77-86 | A two-word snake_case name becomes the two words capitalized and run together. |
| Gen.ModelNameOfTwoWords | pkg/database/gen.go:89-97 | A two-word table name with the configured prefix gives the same model name as the bare name lacking the prefix. |
| Gen.UserRoleModelName | pkg/database/gen.go:89-97 | With the prefix "sys_", both "sys_user_role" and "user_role" get the model name "UserRole". |
| Gen.IntegerTypesMapToInt64 | pkg/database/gen.go:103-109 | Exactly tinyint, smallint, mediumint, bigint and int are mapped, all to int64. |
| Gen.NewGenerator | pkg/database/gen.go:33-117 | Nil config gives the error "config cannot be nil". SingularTable is true afterwards. A connect error is wrapped. The configuration's other fields, WithUnitTest and WithQueryFilter among them, are left as they were. On success the naming strategy carries the prefix and the integer map is installed. |
| Logger.Lower | pkg/logger/logger.go:155 | Lower-cases each ASCII letter in place, leaving the length unchanged. |
| Logger.LowerIsIdempotent | pkg/logger/logger.go:155 | Lower-casing twice is lower-casing once. |
| Logger.ParseLevel | pkg/logger/logger.go:154-173 | No error exactly for the seven names after lower-casing, and then the level of that name. Anything else gives InfoLevel and an error naming the input. |
| Logger.LevelNameRoundTrip | pkg/logger/logger.go:156-169 | Each level's name parses back to that level without error. |
| Logger.ParseLevelIgnoresCase | pkg/logger/logger.go:155 | A text and its lower-cased form give the same level, and one is refused exactly when the other is. |
| Logger.GetLogWriter | pkg/logger/logger.go:176-209 | Defaults are 100/30/30 with compression. With rotation enabled, only strictly positive values override, and Compress is copied. Every limit ends up positive. |
| Logger.GetContextFields | pkg/logger/logger.go:306-312 | One field per context entry: distinct keys, each carrying its entry's value, every key present, in any order. |
| Logger.FieldMapOfAgreeingFields | pkg/logger/logger.go:306-311 | Fields that agree with a map describe exactly their keys of that map. |
| Logger.ContextFieldsDescribeContext | pkg/logger/logger.go:306-311 | The fields taken from a context describe that context again. |
| Logger.FieldsWithContext | pkg/logger/logger.go:282-285 | The context's fields come first and the call's own fields follow, unchanged. |
| Database.ParseLogLevel | pkg/database/db.go:136-149 | Exact matches of "silent", "error", "warn" and "info" give their levels. Anything else gives Info. |
| Database.LogLevelNameRoundTrip | pkg/database/db.go:137-145 | Each level's name selects it. |
| Database.BuildResolverConfig | pkg/database/db.go:91-106 | The write DSN is the only source. The replicas are the read DSNs in order. The random policy is set exactly for the text "random". |
| Database.Init | pkg/database/db.go:38-133 | An empty write DSN is refused before anything else. Each failing step yields its own wrapped message. Success holds exactly when every step succeeds, and the logger, pool, resolver and tracing plugin are then set from the configuration. |
| Database.StartSpan | pkg/database/db.go:220-249 | The name is the prefix followed by the operation. The system and operation attributes come first, then the SQL (when recorded and non-empty) and the table (when named). |
| Database.SpanNamesTellOperationsApart | pkg/database/db.go:23-29 | Under one prefix the five operations get five different span names. |
| Database.EndSpan | pkg/database/db.go:252-266 | The span is marked as an error, and the error recorded, exactly for a non-nil error other than record-not-found. The affected-row count is attached exactly when configured and the statement is non-empty. |

## Left out

- RoleRules.ListOffset: integers are unbounded throughout, except for the
  listing offset. Only there does 64-bit wrap-around matter for inputs that
  pass validation (see Findings); `ListOffsetAsWritten` models it.
- Tables.Contains: the name and code filters are plain substring tests. A `%`
  or `_` typed by the user would act as a SQL wildcard in the source. The
  test is case-sensitive, whereas `LIKE` under utf8mb4's default collation
  ignores case (see Tables.Matches below).
- Tables.Matches: names and codes are compared exactly, as under a binary
  collation. The source runs these comparisons in SQL, and the connection
  sets only `charset=utf8mb4`. That charset's default collations ignore case
  (and accents), so "Admin" and "admin" would clash there. `CreateAddsOneRole`,
  `UpdateConflictsOnlyWithOtherRoles`, the three `*KeepsNamesAndCodesUnique`
  lemmas and `DeleteVariantsAgree` hold only under exact comparison. Under a
  case-insensitive collation the service's SQL count of `code = 'super-admin'`
  would also match "Super-Admin", while logic.go's Go `==` would not, so the
  two Delete variants could then disagree.
- Timestamps (`created_at`, `updated_at`, the time in `deleted_at`) are not
  modelled; soft deletion is a flag. A nil status is stored as nil rather than
  taking a column default.
- Rows that tie on `sort` come back in an order the database chooses. The model
  fixes one order (by id), so it says nothing about how the database breaks
  ties.
- logic.go's `ListRoleItem` scans into a nil slice when nothing matches, where
  the model returns an empty sequence; the JSON shows `null` rather than `[]`.
- Logging inside the role methods is treated as a no-op.
- Concurrent calls, races between a check and the write, and the storage
  engine's unique indexes are not modelled. Transactions run one at a time as
  snapshot and restore.
- Transaction begin and commit failures are not modelled. Only the statements
  named in `Step` can fail.
- The `withDO`, `Joins` and `Preload` pass-throughs of the generated query
  object, and its other builder methods, only forward to GORM.
- Gen.ToCamelCase: `strings.ToUpper` is modelled on ASCII letters only. A
  multi-byte first character would be split by `part[:1]` in the source.
- Logger.Lower: `strings.ToLower` is modelled on ASCII letters only.
- Logger.GetLogWriter: `os.MkdirAll` and its printed failure are left out.
  They do not change the writer settings.
- Building zap cores and encoders, sampling, and the log functions themselves
  (`Debug` … `Fatalf`, `Sync`) belong to the logging library.
- `Init` in pkg/database/db.go: opening the connection and the log file,
  setting the pool, and registering the resolver and the plugin are parameters
  (their errors). `SlowThreshold` is a float and is left out.
- `TracingPlugin.Initialize` (callback registration) and emitting spans
  through the tracer are left out. `startSpan`'s replacement of a nil context
  is not modelled, because contexts are not.
- pkg/cache, pkg/config, main.go, cmd/gen/main.go and internal/global are not
  part of this model: they are network clients, file watching and process
  wiring.

## Findings

| source | as written | input that shows it | evidently intended | confidence | as-written member | corrected member |
|---|---|---|---|---|---|---|
| internal/logic/role/logic.go:45 | After `First()`, logic.go reads `r.ID` without checking the result. When nothing matches, `First()` returns a nil role with ErrRecordNotFound, so the "name is free" path dereferences nil. The same happens at lines 55, 103 and 115. | CreateRole with a name no live role holds; UpdateRole renaming a role to a free name | Nothing found means the name (or code) is free, as service.go's Count-based checks read it | high, not executed | RoleRules.LogicCreateAsWrittenNeverSucceeds | RoleRules.CreateAddsOneRole |
| internal/logic/role/service.go:250 | `(req.Page-1)*req.Size` is computed in 64-bit `int`, and validation bounds Page only from below | Page = 2^62+1, Size = 10: the offset wraps to -2^63, GORM adds no OFFSET, and a short page gives total offset + len(page) < 0 | The offset of page Page, computed without overflow (or Page bounded from above) | medium, not executed | RoleRules.ListOffsetAsWrittenWraps | RoleRules.ListOffsetOfValidRequest |
