// internal/logic/role/service.go: the role store that runs its checks
// outside any transaction and wraps only the final write in one
// (`global.DB.Transaction`), plus the lazily created package instance.
module RoleService {
  import opened Wrappers
  import opened Consts
  import opened RoleDto
  import opened Tables
  import opened RoleRules
  import Paging
  import Resp

  /** The `roleService` type: no fields, its methods work on the store passed in. */
  class Service {
    constructor ()
    {
    }

    /** Count the name, then the code, then insert inside a transaction. */
    method CreateRole(db: Store, req: CreateRoleReq, failing: set<Step>) returns (err: Option<Error>)
      requires db.Valid()
      modifies db
      ensures db.Valid()
      ensures (db.State(), err) == Create(old(db.State()), req, failing)
    {
      if CheckName in failing {
        return Some(ErrServer);
      }
      var nameCount := db.Count(NameIs(req.name, None));
      if nameCount > 0 {
        return Some(ErrRoleNameExists);
      }
      if CheckCode in failing {
        return Some(ErrServer);
      }
      var codeCount := db.Count(CodeIs(req.code, None));
      if codeCount > 0 {
        return Some(ErrRoleCodeExists);
      }
      var begin := db.Snapshot();
      if WriteRole in failing {
        db.Rollback(begin);
        return Some(ErrServer);
      }
      var _ := db.Insert(NewRole(req));
      return None;
    }

    /** Load the role, count the name and the code only where they change, then update inside a transaction. */
    method UpdateRole(db: Store, req: UpdateRoleReq, failing: set<Step>) returns (err: Option<Error>)
      requires db.Valid()
      modifies db
      ensures db.Valid()
      ensures (db.State(), err) == Update(old(db.State()), req, failing)
    {
      if LoadRole in failing {
        return Some(ErrServer);
      }
      var found := db.First(IdIs(req.id));
      if found.None? {
        return Some(ErrRoleNotFound);
      }
      var stored := found.value;
      if stored.name != req.name {
        if CheckName in failing {
          return Some(ErrServer);
        }
        var nameCount := db.Count(NameIs(req.name, Some(req.id)));
        if nameCount > 0 {
          return Some(ErrRoleNameExists);
        }
      }
      if stored.code != req.code {
        if CheckCode in failing {
          return Some(ErrServer);
        }
        var codeCount := db.Count(CodeIs(req.code, Some(req.id)));
        if codeCount > 0 {
          return Some(ErrRoleCodeExists);
        }
      }
      var begin := db.Snapshot();
      if WriteRole in failing {
        db.Rollback(begin);
        return Some(ErrServer);
      }
      db.UpdateWhereId(req.id, PatchOf(req));
      return None;
    }

    /**
     * Refuse an empty batch, count the live roles of the batch, count the
     * super administrators among them, then soft-delete the roles and delete
     * their join rows inside a transaction.
     */
    method DeleteRole(db: Store, req: DeleteRoleReq, failing: set<Step>) returns (err: Option<Error>)
      requires db.Valid()
      modifies db
      ensures db.Valid()
      ensures (db.State(), err) == Delete(old(db.State()), req.ids, failing, ServiceVariant)
    {
      var ids := req.ids;
      ghost var s := db.State();
      ghost var found := Select(LiveRows(s), IdIn(ids));
      if |ids| == 0 {
        return Some(ErrInvalidParam);
      }
      if LoadBatch in failing {
        return Some(ErrServer);
      }
      var roleCount := db.Count(IdIn(ids));
      assert roleCount == |found|;
      if roleCount != |ids| {
        return Some(ErrRoleNotFound);
      }
      if CheckSuperAdmin in failing {
        return Some(ErrServer);
      }
      SuperAdminCountMatchesBatch(s, ids);
      var superAdmins := db.Count(IdInWithCode(ids, SuperAdminCode));
      if superAdmins > 0 {
        assert DeleteError(s, ids, failing, ServiceVariant) == Some(ErrRoleSuperAdmin);
        return Some(ErrRoleSuperAdmin);
      }
      assert !HasSuperAdmin(found);
      var begin := db.Snapshot();
      if DeleteRoles in failing {
        db.Rollback(begin);
        return Some(ErrServer);
      }
      db.SoftDeleteWhereIdIn(ids);
      if DeleteJoins in failing {
        db.Rollback(begin);
        return Some(ErrServer);
      }
      db.DeleteUserRolesWhereRoleIdIn(ids);
      DeletesCommute(s, ids);
      assert DeleteError(s, ids, failing, ServiceVariant).None?;
      return None;
    }

    method GetRole(db: Store, req: GetRoleReq, failing: set<Step>) returns (r: Result<Role, Error>)
      requires db.Valid()
      ensures r == Get(db.State(), req.id, failing)
    {
      if LoadRole in failing {
        return Failure(ErrServer);
      }
      var found := db.First(IdIs(req.id));
      if found.None? {
        return Failure(ErrRoleNotFound);
      }
      return Success(found.value);
    }

    /** ListRole: the filters, the order, then FindByPage at `(Page-1)*Size`. */
    method ListRole(db: Store, req: ListRoleReq, failing: set<Step>) returns (r: Result<Resp.PageResp<Role>, Error>)
      requires db.Valid()
      ensures r == List(db.State(), req, failing)
    {
      var matching := db.Find(Listing(req.name, req.code, req.status), Some(BySortThenIdDesc));
      var page := Paging.FindByPage(matching, ListOffset(req), req.size,
                                    StepError(failing, FindPage), StepError(failing, CountPage));
      if page.err.Some? {
        return Failure(ErrServer);
      }
      return Success(Resp.NewPageResp(page.result, page.count));
    }

    /** ListRoleItem: find the enabled roles ordered by sort, then append one option per role. */
    method ListRoleItem(db: Store, failing: set<Step>) returns (r: Result<seq<ListRoleItemResp>, Error>)
      requires db.Valid()
      ensures r == Items(db.State(), failing)
    {
      if FindItems in failing {
        return Failure(ErrServer);
      }
      var result := db.Find(StatusIs(1), Some(BySort));
      var list: seq<ListRoleItemResp> := [];
      for i := 0 to |result|
        invariant list == Project(result[..i])
      {
        assert result[..i + 1] == result[..i] + [result[i]];
        list := list + [ListRoleItemResp(result[i].id, result[i].name)];
      }
      assert result[..|result|] == result;
      return Success(list);
    }
  }

  /** The package-level `localRole`, created on first use by `Role()`. */
  class Registry {
    var localRole: Service?

    constructor ()
      ensures localRole == null
    {
      localRole := null;
    }

    /** `Role()`: create the instance on the first call, return the same one on every call. */
    method Role() returns (svc: Service)
      modifies this
      ensures old(localRole) != null ==> svc == old(localRole)
      ensures old(localRole) == null ==> fresh(svc)
      ensures localRole == svc
    {
      if localRole == null {
        localRole := new Service();
      }
      svc := localRole;
    }
  }

  /** Two calls to `Role()` hand out the same instance. */
  method RoleIsASingleton(reg: Registry) returns (first: Service, second: Service)
    modifies reg
    ensures first == second && reg.localRole == first
  {
    first := reg.Role();
    second := reg.Role();
  }
}
