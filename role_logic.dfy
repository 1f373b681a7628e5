// internal/logic/role/logic.go: the role store that runs every check and
// the write inside one transaction (`global.Query.Transaction`), rolled
// back when the transaction's function returns an error.
//
// Each `First()` lookup is read as an Option: a found role means the name
// (or code) is taken, nothing found means it is free. The source reads
// `r.ID` off the result instead, which faults on the nil role `First()`
// returns when nothing matches; RoleRules.LogicCreateAsWritten and
// RoleRules.LogicUpdateAsWritten model that reading.
module RoleLogic {
  import opened Wrappers
  import opened Consts
  import opened RoleDto
  import opened Tables
  import opened RoleRules
  import Paging
  import Resp

  /** The `logic` type: no fields, its methods work on the store passed in. */
  class Logic {
    constructor ()
    {
    }

    /** CreateRole: the transaction's function, then commit or roll back. */
    method CreateRole(db: Store, req: CreateRoleReq, failing: set<Step>) returns (err: Option<Error>)
      requires db.Valid()
      modifies db
      ensures db.Valid()
      ensures (db.State(), err) == Create(old(db.State()), req, failing)
    {
      var begin := db.Snapshot();
      err := CreateInTransaction(db, req, failing);
      if err.Some? {
        db.Rollback(begin);
      }
      CreateAddsOneRole(begin, req, failing);
    }

    method CreateInTransaction(db: Store, req: CreateRoleReq, failing: set<Step>) returns (err: Option<Error>)
      requires db.Valid()
      modifies db
      ensures db.Valid()
      ensures err == Create(old(db.State()), req, failing).1
      ensures err.None? ==> db.State() == Create(old(db.State()), req, failing).0
    {
      var live := LiveRows(db.State());
      FirstFindsIffCountPositive(live, NameIs(req.name, None));
      FirstFindsIffCountPositive(live, CodeIs(req.code, None));
      if CheckName in failing {
        return Some(ErrServer);
      }
      var byName := db.First(NameIs(req.name, None));
      if byName.Some? {
        return Some(ErrRoleNameExists);
      }
      if CheckCode in failing {
        return Some(ErrServer);
      }
      var byCode := db.First(CodeIs(req.code, None));
      if byCode.Some? {
        return Some(ErrRoleCodeExists);
      }
      if WriteRole in failing {
        return Some(ErrServer);
      }
      var _ := db.Insert(NewRole(req));
      return None;
    }

    /** UpdateRole: the transaction's function, then commit or roll back. */
    method UpdateRole(db: Store, req: UpdateRoleReq, failing: set<Step>) returns (err: Option<Error>)
      requires db.Valid()
      modifies db
      ensures db.Valid()
      ensures (db.State(), err) == Update(old(db.State()), req, failing)
    {
      var begin := db.Snapshot();
      err := UpdateInTransaction(db, req, failing);
      if err.Some? {
        db.Rollback(begin);
      }
      UpdateWritesOnlyTheTarget(begin, req, failing);
    }

    method UpdateInTransaction(db: Store, req: UpdateRoleReq, failing: set<Step>) returns (err: Option<Error>)
      requires db.Valid()
      modifies db
      ensures db.Valid()
      ensures err == Update(old(db.State()), req, failing).1
      ensures err.None? ==> db.State() == Update(old(db.State()), req, failing).0
    {
      var live := LiveRows(db.State());
      FirstFindsIffCountPositive(live, NameIs(req.name, Some(req.id)));
      FirstFindsIffCountPositive(live, CodeIs(req.code, Some(req.id)));
      if LoadRole in failing {
        return Some(ErrServer);
      }
      var found := db.First(IdIs(req.id));
      if found.None? {
        return Some(ErrRoleNotFound);
      }
      var stored := found.value;
      if stored.name != req.name {
        if CheckName in failing {
          return Some(ErrServer);
        }
        var byName := db.First(NameIs(req.name, Some(req.id)));
        if byName.Some? {
          return Some(ErrRoleNameExists);
        }
      }
      if stored.code != req.code {
        if CheckCode in failing {
          return Some(ErrServer);
        }
        var byCode := db.First(CodeIs(req.code, Some(req.id)));
        if byCode.Some? {
          return Some(ErrRoleCodeExists);
        }
      }
      if WriteRole in failing {
        return Some(ErrServer);
      }
      db.UpdateWhereId(req.id, PatchOf(req));
      return None;
    }

    /** DeleteRole: an empty batch returns at once; otherwise the transaction. */
    method DeleteRole(db: Store, req: DeleteRoleReq, failing: set<Step>) returns (err: Option<Error>)
      requires db.Valid()
      modifies db
      ensures db.Valid()
      ensures (db.State(), err) == Delete(old(db.State()), req.ids, failing, LogicVariant)
    {
      if |req.ids| == 0 {
        return None;
      }
      var begin := db.Snapshot();
      err := DeleteInTransaction(db, req.ids, failing);
      if err.Some? {
        db.Rollback(begin);
      }
      DeleteCascades(begin, req.ids, failing, LogicVariant);
    }

    /**
     * Find the batch, check its size, look for the super administrator
     * role by role, then delete the join rows and soft-delete the roles. A
     * failure of the second write leaves the first one in place: only the
     * rollback in DeleteRole undoes it.
     */
    method DeleteInTransaction(db: Store, ids: seq<int>, failing: set<Step>) returns (err: Option<Error>)
      requires db.Valid() && ids != []
      modifies db
      ensures db.Valid()
      ensures err == Delete(old(db.State()), ids, failing, LogicVariant).1
      ensures err.None? ==> db.State() == Delete(old(db.State()), ids, failing, LogicVariant).0
    {
      if LoadBatch in failing {
        return Some(ErrServer);
      }
      var roles := db.Find(IdIn(ids), None);
      if |roles| != |ids| {
        return Some(ErrRoleNotFound);
      }
      for i := 0 to |roles|
        invariant forall j :: 0 <= j < i ==> roles[j].code != SuperAdminCode
      {
        if roles[i].code == SuperAdminCode {
          return Some(ErrRoleSuperAdmin);
        }
      }
      if DeleteJoins in failing {
        return Some(ErrServer);
      }
      db.DeleteUserRolesWhereRoleIdIn(ids);
      if DeleteRoles in failing {
        return Some(ErrServer);
      }
      db.SoftDeleteWhereIdIn(ids);
      return None;
    }

    method GetRole(db: Store, req: GetRoleReq, failing: set<Step>) returns (r: Result<Role, Error>)
      requires db.Valid()
      ensures r == Get(db.State(), req.id, failing)
    {
      if LoadRole in failing {
        return Failure(ErrServer);
      }
      var found := db.First(IdIs(req.id));
      if found.None? {
        return Failure(ErrRoleNotFound);
      }
      return Success(found.value);
    }

    /** ListRole: the filters, the order, then FindByPage at `(Page-1)*Size`. */
    method ListRole(db: Store, req: ListRoleReq, failing: set<Step>) returns (r: Result<Resp.PageResp<Role>, Error>)
      requires db.Valid()
      ensures r == List(db.State(), req, failing)
    {
      var matching := db.Find(Listing(req.name, req.code, req.status), Some(BySortThenIdDesc));
      var page := Paging.FindByPage(matching, ListOffset(req), req.size,
                                    StepError(failing, FindPage), StepError(failing, CountPage));
      if page.err.Some? {
        return Failure(ErrServer);
      }
      return Success(Resp.NewPageResp(page.result, page.count));
    }

    /** ListRoleItem: the enabled roles ordered by sort, scanned straight into options. */
    method ListRoleItem(db: Store, failing: set<Step>) returns (r: Result<seq<ListRoleItemResp>, Error>)
      requires db.Valid()
      ensures r == Items(db.State(), failing)
    {
      if FindItems in failing {
        return Failure(ErrServer);
      }
      var rows := db.Find(StatusIs(1), Some(BySort));
      return Success(Project(rows));
    }
  }
}
