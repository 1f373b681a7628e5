// What each role operation does to the tables and what it returns, as one
// function per operation. Both implementations of the role store
// (internal/logic/role/logic.go and internal/logic/role/service.go) are
// proved against these functions; `Variant` is consulted only where the two
// differ.
//
// `failing` names the statements the storage engine rejects during the
// call; each such failure is reported as ErrServer.
module RoleRules {
  import opened Wrappers
  import opened Consts
  import opened RoleDto
  import opened Tables
  import Paging
  import Resp

  /** The code of the role that can never be deleted. */
  const SuperAdminCode := "super-admin"

  /** logic.go runs every statement in one transaction; service.go runs the checks outside it. */
  datatype Variant = LogicVariant | ServiceVariant

  /** The statements the role operations issue. */
  datatype Step =
    | CheckName | CheckCode | LoadRole | WriteRole
    | LoadBatch | CheckSuperAdmin | DeleteJoins | DeleteRoles
    | FindPage | CountPage | FindItems

  /** Some live role satisfies the clause. */
  ghost predicate AnyLive(s: DbState, f: Filter) {
    exists k :: IsLive(s, k) && Matches(f, s.roles[k])
  }

  /** Reads under the default scope see exactly the live roles. */
  lemma CountSeesOnlyLiveRows(s: DbState, f: Filter)
    requires WellFormed(s)
    ensures CountWhere(LiveRows(s), f) > 0 <==> AnyLive(s, f)
    ensures FirstWhere(LiveRows(s), f).Some? <==> AnyLive(s, f)
  {
    var live := LiveRows(s);
    FirstFindsIffCountPositive(live, f);
    if AnyLive(s, f) {
      var k :| IsLive(s, k) && Matches(f, s.roles[k]);
      assert s.roles[k] in live;
    }
    if FirstWhere(live, f).Some? {
      assert IsLive(s, FirstWhere(live, f).value.id);
    }
  }

  // ---------------------------------------------------------------------------
  // Create
  // ---------------------------------------------------------------------------

  /** The row Create inserts: the request's fields; the id comes from the counter. */
  function NewRole(req: CreateRoleReq): Role {
    Role(0, req.name, req.code, req.defaultRouter, req.status, req.remark, req.sort, false)
  }

  /** Name check, then code check, then the insert. */
  function Create(s: DbState, req: CreateRoleReq, failing: set<Step>): (r: (DbState, Option<Error>))
    requires WellFormed(s)
    ensures r.1.Some? ==> r.0 == s
    ensures r.1.None? ==> r.0.nextId == s.nextId + 1 && s.nextId !in s.roles && IsLive(r.0, s.nextId)
    ensures WellFormed(r.0)
  {
    var live := LiveRows(s);
    if CheckName in failing then (s, Some(ErrServer))
    else if CountWhere(live, NameIs(req.name, None)) > 0 then (s, Some(ErrRoleNameExists))
    else if CheckCode in failing then (s, Some(ErrServer))
    else if CountWhere(live, CodeIs(req.code, None)) > 0 then (s, Some(ErrRoleCodeExists))
    else if WriteRole in failing then (s, Some(ErrServer))
    else (Inserted(s, NewRole(req)), None)
  }

  /** `t` is `s` plus one live role under a fresh id carrying the request's fields; nothing else differs. */
  ghost predicate AddsOneRole(s: DbState, t: DbState, req: CreateRoleReq) {
    && s.nextId !in s.roles
    && t.roles.Keys == s.roles.Keys + {s.nextId}
    && t.roles[s.nextId] == Role(s.nextId, req.name, req.code, req.defaultRouter,
                                 req.status, req.remark, req.sort, false)
    && (forall k | k in s.roles :: t.roles[k] == s.roles[k])
    && t.userRoles == s.userRoles
    && t.nextId > s.nextId
  }

  /** A name held by a live role is refused before the code is looked at, and nothing is written. */
  lemma CreateRefusesTakenName(s: DbState, req: CreateRoleReq, failing: set<Step>)
    requires WellFormed(s) && CheckName !in failing
    requires AnyLive(s, NameIs(req.name, None))
    ensures Create(s, req, failing) == (s, Some(ErrRoleNameExists))
  {
    CountSeesOnlyLiveRows(s, NameIs(req.name, None));
  }

  /** With the name free, a code held by a live role is refused and nothing is written. */
  lemma CreateRefusesTakenCode(s: DbState, req: CreateRoleReq, failing: set<Step>)
    requires WellFormed(s) && CheckName !in failing && CheckCode !in failing
    requires !AnyLive(s, NameIs(req.name, None)) && AnyLive(s, CodeIs(req.code, None))
    ensures Create(s, req, failing) == (s, Some(ErrRoleCodeExists))
  {
    CountSeesOnlyLiveRows(s, NameIs(req.name, None));
    CountSeesOnlyLiveRows(s, CodeIs(req.code, None));
  }

  /**
   * Create succeeds exactly when its statements all run and both the name
   * and the code are free among live roles; it then adds exactly one role.
   * On any error the tables are unchanged.
   */
  lemma CreateAddsOneRole(s: DbState, req: CreateRoleReq, failing: set<Step>)
    requires WellFormed(s)
    ensures Create(s, req, failing).1.Some? ==> Create(s, req, failing).0 == s
    ensures Create(s, req, failing).1.Some? ==>
      Create(s, req, failing).1.value in {ErrServer, ErrRoleNameExists, ErrRoleCodeExists}
    ensures Create(s, req, failing).1.None? <==>
      && CheckName !in failing && CheckCode !in failing && WriteRole !in failing
      && !AnyLive(s, NameIs(req.name, None)) && !AnyLive(s, CodeIs(req.code, None))
    ensures Create(s, req, failing).1.None? ==>
      AddsOneRole(s, Create(s, req, failing).0, req) && WellFormed(Create(s, req, failing).0)
  {
    CountSeesOnlyLiveRows(s, NameIs(req.name, None));
    CountSeesOnlyLiveRows(s, CodeIs(req.code, None));
  }

  // ---------------------------------------------------------------------------
  // Update
  // ---------------------------------------------------------------------------

  /** The struct Update passes to `Updates`. */
  function PatchOf(req: UpdateRoleReq): RolePatch {
    RolePatch(req.name, req.code, req.defaultRouter, req.status, req.remark, req.sort)
  }

  /**
   * The binding tags make name, code and sort non-zero, so for a request
   * that passed validation `Updates` never skips them: only the optional
   * fields can keep their stored values.
   */
  lemma ValidUpdateOverwritesRequiredFields(r: Role, req: UpdateRoleReq)
    requires ValidUpdate(req)
    ensures Patched(r, PatchOf(req)).name == req.name
    ensures Patched(r, PatchOf(req)).code == req.code
    ensures Patched(r, PatchOf(req)).sort == req.sort
    ensures Patched(r, PatchOf(req)).id == r.id && Patched(r, PatchOf(req)).deleted == r.deleted
  {
  }

  /**
   * Load the live role, re-check the name and the code only where they
   * change (ignoring the role's own row), then write the patch: the error
   * Update ends with, None when it writes.
   */
  function UpdateError(s: DbState, req: UpdateRoleReq, failing: set<Step>): (e: Option<Error>)
    requires WellFormed(s)
    ensures e.Some? ==> e.value in {ErrServer, ErrRoleNotFound, ErrRoleNameExists, ErrRoleCodeExists}
  {
    var live := LiveRows(s);
    if LoadRole in failing then Some(ErrServer)
    else match FirstWhere(live, IdIs(req.id))
      case None => Some(ErrRoleNotFound)
      case Some(stored) =>
        var renames := stored.name != req.name;
        var recodes := stored.code != req.code;
        if renames && CheckName in failing then Some(ErrServer)
        else if renames && CountWhere(live, NameIs(req.name, Some(req.id))) > 0 then Some(ErrRoleNameExists)
        else if recodes && CheckCode in failing then Some(ErrServer)
        else if recodes && CountWhere(live, CodeIs(req.code, Some(req.id))) > 0 then Some(ErrRoleCodeExists)
        else if WriteRole in failing then Some(ErrServer)
        else None
  }

  function Update(s: DbState, req: UpdateRoleReq, failing: set<Step>): (r: (DbState, Option<Error>))
    requires WellFormed(s)
    ensures r.1.Some? ==> r.0 == s
    ensures r.0.roles.Keys == s.roles.Keys && r.0.userRoles == s.userRoles && r.0.nextId == s.nextId
  {
    var e := UpdateError(s, req, failing);
    if e.Some? then (s, e) else (Updated(s, req.id, PatchOf(req)), None)
  }

  lemma LoadSeesOnlyLiveRole(s: DbState, id: int)
    requires WellFormed(s)
    ensures FirstWhere(LiveRows(s), IdIs(id)).Some? <==> IsLive(s, id)
    ensures IsLive(s, id) ==> FirstWhere(LiveRows(s), IdIs(id)) == Some(s.roles[id])
  {
    CountSeesOnlyLiveRows(s, IdIs(id));
  }

  /** An id with no live role (absent or soft-deleted) is reported missing and nothing is written. */
  lemma UpdateMissingRoleIsNotFound(s: DbState, req: UpdateRoleReq, failing: set<Step>)
    requires WellFormed(s) && LoadRole !in failing && !IsLive(s, req.id)
    ensures Update(s, req, failing) == (s, Some(ErrRoleNotFound))
  {
    LoadSeesOnlyLiveRole(s, req.id);
  }

  /**
   * Resubmitting a role's own name and code never conflicts: neither check
   * is even issued, so only the load and the write can fail.
   */
  lemma UpdateKeepingNameAndCodeNeverConflicts(s: DbState, req: UpdateRoleReq, failing: set<Step>)
    requires WellFormed(s) && IsLive(s, req.id)
    requires s.roles[req.id].name == req.name && s.roles[req.id].code == req.code
    requires LoadRole !in failing && WriteRole !in failing
    ensures Update(s, req, failing) == (Updated(s, req.id, PatchOf(req)), None)
  {
    LoadSeesOnlyLiveRole(s, req.id);
  }

  /**
   * A name conflict is reported exactly when the name changes and another
   * live role, never the role itself, already holds it; likewise the code
   * once the name has passed.
   */
  lemma UpdateConflictsOnlyWithOtherRoles(s: DbState, req: UpdateRoleReq, failing: set<Step>)
    requires WellFormed(s) && LoadRole !in failing && IsLive(s, req.id)
    requires CheckName !in failing && CheckCode !in failing
    ensures Update(s, req, failing).1 == Some(ErrRoleNameExists) <==>
      s.roles[req.id].name != req.name &&
      exists k :: IsLive(s, k) && k != req.id && s.roles[k].name == req.name
    ensures Update(s, req, failing).1 == Some(ErrRoleCodeExists) <==>
      !(s.roles[req.id].name != req.name &&
        exists k :: IsLive(s, k) && k != req.id && s.roles[k].name == req.name) &&
      s.roles[req.id].code != req.code &&
      exists k :: IsLive(s, k) && k != req.id && s.roles[k].code == req.code
  {
    UpdateChecksOfLiveRole(s, req, failing);
    var name := NameIs(req.name, Some(req.id));
    var code := CodeIs(req.code, Some(req.id));
    assert AnyLive(s, name) <==> exists k :: IsLive(s, k) && k != req.id && s.roles[k].name == req.name by {
      forall k | IsLive(s, k)
        ensures Matches(name, s.roles[k]) <==> k != req.id && s.roles[k].name == req.name
      {
        assert s.roles[k].id == k;
      }
    }
    assert AnyLive(s, code) <==> exists k :: IsLive(s, k) && k != req.id && s.roles[k].code == req.code by {
      forall k | IsLive(s, k)
        ensures Matches(code, s.roles[k]) <==> k != req.id && s.roles[k].code == req.code
      {
        assert s.roles[k].id == k;
      }
    }
  }

  /** For a live role, Update's checks read as statements about the other live roles. */
  lemma UpdateChecksOfLiveRole(s: DbState, req: UpdateRoleReq, failing: set<Step>)
    requires WellFormed(s) && LoadRole !in failing && IsLive(s, req.id)
    ensures
      var renames := s.roles[req.id].name != req.name;
      var recodes := s.roles[req.id].code != req.code;
      Update(s, req, failing).1 ==
        if renames && CheckName in failing then Some(ErrServer)
        else if renames && AnyLive(s, NameIs(req.name, Some(req.id))) then Some(ErrRoleNameExists)
        else if recodes && CheckCode in failing then Some(ErrServer)
        else if recodes && AnyLive(s, CodeIs(req.code, Some(req.id))) then Some(ErrRoleCodeExists)
        else if WriteRole in failing then Some(ErrServer)
        else None
  {
    LoadSeesOnlyLiveRole(s, req.id);
    CountSeesOnlyLiveRows(s, NameIs(req.name, Some(req.id)));
    CountSeesOnlyLiveRows(s, CodeIs(req.code, Some(req.id)));
  }

  /**
   * A successful update rewrites only the row with the request's id, and
   * only its non-zero fields: a nil optional field, an empty name or code
   * and a zero sort keep the stored values. On any error nothing changes.
   */
  lemma UpdateWritesOnlyTheTarget(s: DbState, req: UpdateRoleReq, failing: set<Step>)
    requires WellFormed(s)
    ensures Update(s, req, failing).1.Some? ==> Update(s, req, failing).0 == s
    ensures Update(s, req, failing).1.None? ==>
      var t := Update(s, req, failing).0;
      var was := s.roles[req.id];
      var now := t.roles[req.id];
      && IsLive(s, req.id) && IsLive(t, req.id)
      && t.roles.Keys == s.roles.Keys && t.userRoles == s.userRoles && t.nextId == s.nextId
      && (forall k | k in s.roles && k != req.id :: t.roles[k] == s.roles[k])
      && now.id == req.id
      && now.name == (if req.name == "" then was.name else req.name)
      && now.code == (if req.code == "" then was.code else req.code)
      && now.defaultRouter == (if req.defaultRouter.None? then was.defaultRouter else req.defaultRouter)
      && now.status == (if req.status.None? then was.status else req.status)
      && now.remark == (if req.remark.None? then was.remark else req.remark)
      && now.sort == (if req.sort == 0 then was.sort else req.sort)
      && WellFormed(t)
  {
    LoadSeesOnlyLiveRole(s, req.id);
  }

  // ---------------------------------------------------------------------------
  // Delete
  // ---------------------------------------------------------------------------

  predicate NoDuplicates(xs: seq<int>) {
    forall i, j :: 0 <= i < j < |xs| ==> xs[i] != xs[j]
  }

  predicate HasSuperAdmin(rows: seq<Role>) {
    exists r :: r in rows && r.code == SuperAdminCode
  }

  /** Both writes of a delete: the join rows of the roles go, the roles are marked deleted. */
  function Deleted(s: DbState, ids: seq<int>): DbState {
    SoftDeleted(JoinsDeleted(s, ids), ids)
  }

  /**
   * Find the live roles with the listed ids; refuse the batch unless one
   * role was found per listed id, and refuse it if it holds the super
   * administrator; then delete. An empty list is accepted as a no-op by
   * logic.go and refused by service.go. The error Delete ends with, None
   * when it deletes or (logic.go) when the list is empty.
   */
  function DeleteError(s: DbState, ids: seq<int>, failing: set<Step>, v: Variant): (e: Option<Error>)
    requires WellFormed(s)
    ensures e.Some? ==> e.value in {ErrInvalidParam, ErrServer, ErrRoleNotFound, ErrRoleSuperAdmin}
  {
    if ids == [] then (if v == LogicVariant then None else Some(ErrInvalidParam))
    else if LoadBatch in failing then Some(ErrServer)
    else
      var found := Select(LiveRows(s), IdIn(ids));
      if |found| != |ids| then Some(ErrRoleNotFound)
      else if v == ServiceVariant && CheckSuperAdmin in failing then Some(ErrServer)
      else if HasSuperAdmin(found) then Some(ErrRoleSuperAdmin)
      else if DeleteJoins in failing || DeleteRoles in failing then Some(ErrServer)
      else None
  }

  function Delete(s: DbState, ids: seq<int>, failing: set<Step>, v: Variant): (r: (DbState, Option<Error>))
    requires WellFormed(s)
    ensures r.1.Some? ==> r.0 == s
    ensures r.0.roles.Keys == s.roles.Keys && r.0.nextId == s.nextId
  {
    var e := DeleteError(s, ids, failing, v);
    if e.Some? || ids == [] then (s, e) else (Deleted(s, ids), None)
  }

  /** service.go's count of super administrators in the batch is positive exactly when the batch found holds one. */
  lemma SuperAdminCountMatchesBatch(s: DbState, ids: seq<int>)
    requires WellFormed(s)
    ensures CountWhere(LiveRows(s), IdInWithCode(ids, SuperAdminCode)) > 0 <==>
      HasSuperAdmin(Select(LiveRows(s), IdIn(ids)))
  {
    var live := LiveRows(s);
    var sel := Select(live, IdInWithCode(ids, SuperAdminCode));
    if |sel| > 0 {
      assert sel[0] in Select(live, IdIn(ids));
    }
    if HasSuperAdmin(Select(live, IdIn(ids))) {
      var r :| r in Select(live, IdIn(ids)) && r.code == SuperAdminCode;
      assert r in sel;
    }
  }

  /** An empty batch: success without a statement in logic.go, ErrInvalidParam in service.go. */
  lemma DeleteOfNothing(s: DbState, failing: set<Step>)
    requires WellFormed(s)
    ensures Delete(s, [], failing, LogicVariant) == (s, None)
    ensures Delete(s, [], failing, ServiceVariant) == (s, Some(ErrInvalidParam))
  {
  }

  /** `xs` with its first `x` removed. */
  function RemoveFirst(xs: seq<int>, x: int): (r: seq<int>)
    ensures x in xs ==> |r| == |xs| - 1
    ensures forall y :: y in r ==> y in xs
    ensures forall y :: y != x && y in xs ==> y in r
  {
    if xs == [] then []
    else if xs[0] == x then xs[1..]
    else [xs[0]] + RemoveFirst(xs[1..], x)
  }

  /** A sequence without repeats whose elements all occur in `b` is no longer than `b`. */
  lemma {:induction false} NoDuplicatesFitIn(a: seq<int>, b: seq<int>)
    requires NoDuplicates(a) && forall x :: x in a ==> x in b
    ensures |a| <= |b|
  {
    if a != [] {
      var rest := RemoveFirst(b, a[0]);
      assert forall x :: x in a[1..] ==> x != a[0] && x in b;
      NoDuplicatesFitIn(a[1..], rest);
    }
  }

  function IdsOf(rows: seq<Role>): (r: seq<int>)
    ensures |r| == |rows| && forall i :: 0 <= i < |rows| ==> r[i] == rows[i].id
  {
    if rows == [] then [] else [rows[0].id] + IdsOf(rows[1..])
  }

  /** The ids of the batch's live roles: each listed and live, none repeated. */
  lemma FoundIds(s: DbState, ids: seq<int>)
    requires WellFormed(s)
    ensures var fids := IdsOf(Select(LiveRows(s), IdIn(ids)));
      && NoDuplicates(fids)
      && (forall x :: x in fids ==> x in ids && IsLive(s, x))
      && (forall x :: x in ids && IsLive(s, x) ==> x in fids)
  {
    var found := Select(LiveRows(s), IdIn(ids));
    var fids := IdsOf(found);
    forall x | x in ids && IsLive(s, x)
      ensures x in fids
    {
      assert s.roles[x] in found;
      var i :| 0 <= i < |found| && found[i] == s.roles[x];
      assert fids[i] == x;
    }
  }

  /** A batch that repeats an id finds fewer roles than it lists. */
  lemma RepeatedIdFindsFewer(fids: seq<int>, ids: seq<int>)
    requires NoDuplicates(fids) && (forall x :: x in fids ==> x in ids) && !NoDuplicates(ids)
    ensures |fids| < |ids|
  {
    var i, j :| 0 <= i < j < |ids| && ids[i] == ids[j];
    var fewer := ids[..j] + ids[j + 1..];
    forall x | x in fids
      ensures x in fewer
    {
      var k :| 0 <= k < |ids| && ids[k] == x;
      if k == j {
        assert fewer[i] == x;
      } else if k < j {
        assert fewer[k] == x;
      } else {
        assert fewer[k - 1] == x;
      }
    }
    NoDuplicatesFitIn(fids, fewer);
  }

  /** A batch listing an id that no found role carries finds fewer roles than it lists. */
  lemma MissingIdFindsFewer(fids: seq<int>, ids: seq<int>, id: int)
    requires NoDuplicates(fids) && (forall x :: x in fids ==> x in ids) && id in ids && id !in fids
    ensures |fids| < |ids|
  {
    NoDuplicatesFitIn(fids, RemoveFirst(ids, id));
  }

  /**
   * A non-empty batch is refused as not found exactly when it repeats an id
   * or lists an id with no live role, whichever variant runs it.
   */
  lemma DeleteNotFoundExactly(s: DbState, ids: seq<int>, failing: set<Step>, v: Variant)
    requires WellFormed(s) && ids != [] && LoadBatch !in failing
    ensures Delete(s, ids, failing, v).1 == Some(ErrRoleNotFound) <==>
      !NoDuplicates(ids) || exists id :: id in ids && !IsLive(s, id)
    ensures Delete(s, ids, failing, v).1 == Some(ErrRoleNotFound) ==> Delete(s, ids, failing, v).0 == s
  {
    BatchFindsFewerExactly(s, ids);
    assert DeleteError(s, ids, failing, v) == Some(ErrRoleNotFound) <==>
      |Select(LiveRows(s), IdIn(ids))| != |ids|;
  }

  /** The batch's read finds fewer roles than ids listed exactly when an id repeats or has no live role. */
  lemma BatchFindsFewerExactly(s: DbState, ids: seq<int>)
    requires WellFormed(s)
    ensures |Select(LiveRows(s), IdIn(ids))| != |ids| <==>
      !NoDuplicates(ids) || exists id :: id in ids && !IsLive(s, id)
  {
    var fids := IdsOf(Select(LiveRows(s), IdIn(ids)));
    FoundIds(s, ids);
    if !NoDuplicates(ids) {
      RepeatedIdFindsFewer(fids, ids);
    } else if exists id :: id in ids && !IsLive(s, id) {
      var id :| id in ids && !IsLive(s, id);
      MissingIdFindsFewer(fids, ids, id);
    } else {
      NoDuplicatesFitIn(fids, ids);
      NoDuplicatesFitIn(ids, fids);
    }
  }

  /**
   * A batch that names only live roles, once each, and contains the super
   * administrator is refused whole, and nothing is written.
   */
  lemma DeleteRefusesSuperAdmin(s: DbState, ids: seq<int>, failing: set<Step>, v: Variant)
    requires WellFormed(s) && ids != [] && LoadBatch !in failing
    requires v == ServiceVariant ==> CheckSuperAdmin !in failing
    requires NoDuplicates(ids) && forall id | id in ids :: IsLive(s, id)
    requires exists id :: id in ids && IsLive(s, id) && s.roles[id].code == SuperAdminCode
    ensures Delete(s, ids, failing, v) == (s, Some(ErrRoleSuperAdmin))
  {
    BatchFindsFewerExactly(s, ids);
    var id :| id in ids && IsLive(s, id) && s.roles[id].code == SuperAdminCode;
    assert s.roles[id] in Select(LiveRows(s), IdIn(ids));
    assert HasSuperAdmin(Select(LiveRows(s), IdIn(ids)));
  }

  /**
   * A successful delete removed every join row of the listed roles and kept
   * every other join row in order, and marked exactly the listed roles
   * deleted; they were all live and none was the super administrator. Any
   * error leaves both tables unchanged.
   */
  lemma DeleteCascades(s: DbState, ids: seq<int>, failing: set<Step>, v: Variant)
    requires WellFormed(s)
    ensures Delete(s, ids, failing, v).1.Some? ==> Delete(s, ids, failing, v).0 == s
    ensures ids != [] && Delete(s, ids, failing, v).1.None? ==>
      var t := Delete(s, ids, failing, v).0;
      && (forall id | id in ids :: IsLive(s, id) && s.roles[id].code != SuperAdminCode)
      && (forall j :: j in t.userRoles <==> j in s.userRoles && j.roleId !in ids)
      && t.roles.Keys == s.roles.Keys && t.nextId == s.nextId
      && (forall k | k in s.roles :: k in ids ==> t.roles[k] == s.roles[k].(deleted := true))
      && (forall k | k in s.roles :: k !in ids ==> t.roles[k] == s.roles[k])
      && WellFormed(t)
  {
    if ids != [] && LoadBatch !in failing && Delete(s, ids, failing, v).1.None? {
      DeleteNotFoundExactly(s, ids, failing, v);
      var found := Select(LiveRows(s), IdIn(ids));
      forall id | id in ids
        ensures s.roles[id].code != SuperAdminCode
      {
        assert s.roles[id] in found;
      }
    }
  }

  /**
   * Run one at a time, the two variants agree on every non-empty batch
   * unless service.go's separate super-administrator count fails.
   */
  lemma DeleteVariantsAgree(s: DbState, ids: seq<int>, failing: set<Step>)
    requires WellFormed(s) && ids != [] && CheckSuperAdmin !in failing
    ensures Delete(s, ids, failing, LogicVariant) == Delete(s, ids, failing, ServiceVariant)
  {
  }

  // ---------------------------------------------------------------------------
  // Live names and codes stay unique
  // ---------------------------------------------------------------------------

  /** No two live roles share a name or a code: what the checks before every write protect. */
  ghost predicate UniqueNamesAndCodes(s: DbState) {
    forall j, k | IsLive(s, j) && IsLive(s, k) && j != k ::
      s.roles[j].name != s.roles[k].name && s.roles[j].code != s.roles[k].code
  }

  lemma CreateKeepsNamesAndCodesUnique(s: DbState, req: CreateRoleReq, failing: set<Step>)
    requires WellFormed(s) && UniqueNamesAndCodes(s)
    ensures UniqueNamesAndCodes(Create(s, req, failing).0)
  {
    CreateAddsOneRole(s, req, failing);
    var t := Create(s, req, failing).0;
    if Create(s, req, failing).1.None? {
      forall j, k | IsLive(t, j) && IsLive(t, k) && j != k
        ensures t.roles[j].name != t.roles[k].name && t.roles[j].code != t.roles[k].code
      {
        if j == s.nextId {
          assert !Matches(NameIs(req.name, None), s.roles[k]);
          assert !Matches(CodeIs(req.code, None), s.roles[k]);
        } else if k == s.nextId {
          assert !Matches(NameIs(req.name, None), s.roles[j]);
          assert !Matches(CodeIs(req.code, None), s.roles[j]);
        }
      }
    }
  }

  /** After a successful update the role's name and code differ from those of every other live role. */
  lemma UpdatedRoleStaysDistinct(s: DbState, req: UpdateRoleReq, failing: set<Step>, k: int)
    requires WellFormed(s) && UniqueNamesAndCodes(s) && Update(s, req, failing).1.None?
    requires IsLive(s, k) && k != req.id
    ensures IsLive(s, req.id)
    ensures Patched(s.roles[req.id], PatchOf(req)).name != s.roles[k].name
    ensures Patched(s.roles[req.id], PatchOf(req)).code != s.roles[k].code
  {
    UpdateSucceeded(s, req, failing);
    var other := s.roles[k];
    assert other.id == k;
    assert !Matches(NameIs(req.name, Some(req.id)), other) ==> other.name != req.name;
    assert !Matches(CodeIs(req.code, Some(req.id)), other) ==> other.code != req.code;
  }

  /** The reads a write-reaching Update made: the role was found, and a changed name or code counted zero. */
  lemma UpdatePassedChecks(s: DbState, req: UpdateRoleReq, failing: set<Step>)
    requires WellFormed(s) && UpdateError(s, req, failing).None?
    ensures LoadRole !in failing && FirstWhere(LiveRows(s), IdIs(req.id)).Some?
    ensures FirstWhere(LiveRows(s), IdIs(req.id)).value.name != req.name ==>
      CountWhere(LiveRows(s), NameIs(req.name, Some(req.id))) == 0
    ensures FirstWhere(LiveRows(s), IdIs(req.id)).value.code != req.code ==>
      CountWhere(LiveRows(s), CodeIs(req.code, Some(req.id))) == 0
  {
  }

  /** What a successful Update had found: the live role, and no other live role holding a changed name or code. */
  lemma UpdateSucceeded(s: DbState, req: UpdateRoleReq, failing: set<Step>)
    requires WellFormed(s) && Update(s, req, failing).1.None?
    ensures IsLive(s, req.id)
    ensures s.roles[req.id].name != req.name ==> !AnyLive(s, NameIs(req.name, Some(req.id)))
    ensures s.roles[req.id].code != req.code ==> !AnyLive(s, CodeIs(req.code, Some(req.id)))
  {
    UpdatePassedChecks(s, req, failing);
    LoadSeesOnlyLiveRole(s, req.id);
    CountSeesOnlyLiveRows(s, NameIs(req.name, Some(req.id)));
    CountSeesOnlyLiveRows(s, CodeIs(req.code, Some(req.id)));
  }

  lemma UpdateKeepsNamesAndCodesUnique(s: DbState, req: UpdateRoleReq, failing: set<Step>)
    requires WellFormed(s) && UniqueNamesAndCodes(s)
    ensures UniqueNamesAndCodes(Update(s, req, failing).0)
  {
    UpdateWritesOnlyTheTarget(s, req, failing);
    var t := Update(s, req, failing).0;
    if Update(s, req, failing).1.None? {
      var id := req.id;
      assert IsLive(s, id);
      assert t.roles[id] == Patched(s.roles[id], PatchOf(req));
      forall j, k | IsLive(t, j) && IsLive(t, k) && j != k
        ensures t.roles[j].name != t.roles[k].name && t.roles[j].code != t.roles[k].code
      {
        if j == id {
          UpdatedRoleStaysDistinct(s, req, failing, k);
        } else if k == id {
          UpdatedRoleStaysDistinct(s, req, failing, j);
        }
      }
    }
  }

  lemma DeleteKeepsNamesAndCodesUnique(s: DbState, ids: seq<int>, failing: set<Step>, v: Variant)
    requires WellFormed(s) && UniqueNamesAndCodes(s)
    ensures UniqueNamesAndCodes(Delete(s, ids, failing, v).0)
  {
    DeleteCascades(s, ids, failing, v);
    var t := Delete(s, ids, failing, v).0;
    forall k | IsLive(t, k)
      ensures IsLive(s, k) && t.roles[k] == s.roles[k]
    {
    }
  }

  // ---------------------------------------------------------------------------
  // Get
  // ---------------------------------------------------------------------------

  function Get(s: DbState, id: int, failing: set<Step>): (r: Result<Role, Error>)
    requires WellFormed(s)
    ensures r.Success? ==> r.value.id == id && IsLive(s, id) && s.roles[id] == r.value
    ensures r.Failure? ==> r.error == ErrServer || r.error == ErrRoleNotFound
  {
    if LoadRole in failing then Failure(ErrServer)
    else match FirstWhere(LiveRows(s), IdIs(id))
      case None => Failure(ErrRoleNotFound)
      case Some(r) => Success(r)
  }

  /** Get returns the live role with the id, and ErrRoleNotFound when it is absent or soft-deleted. */
  lemma GetSeesOnlyLiveRoles(s: DbState, id: int, failing: set<Step>)
    requires WellFormed(s) && LoadRole !in failing
    ensures Get(s, id, failing).Success? <==> IsLive(s, id)
    ensures Get(s, id, failing).Success? ==> Get(s, id, failing).value == s.roles[id]
    ensures Get(s, id, failing).Failure? ==> Get(s, id, failing).error == ErrRoleNotFound
  {
    LoadSeesOnlyLiveRole(s, id);
  }

  // ---------------------------------------------------------------------------
  // List
  // ---------------------------------------------------------------------------

  /** `(Page-1)*Size` computed without overflow. */
  function ListOffset(req: ListRoleReq): int {
    (req.page - 1) * req.size
  }

  /** A valid listing request starts at a non-negative offset. */
  lemma ListOffsetOfValidRequest(req: ListRoleReq)
    requires ValidList(req)
    ensures ListOffset(req) >= 0
  {
    assert req.page - 1 >= 0 && req.size > 0;
  }

  const Int64Range := 0x1_0000_0000_0000_0000
  const Int64Min := -0x8000_0000_0000_0000

  /** A value as a 64-bit two's-complement integer holds it. */
  function Int64(x: int): (r: int)
    ensures Int64Min <= r < -Int64Min
    ensures (r - x) % Int64Range == 0
  {
    (x - Int64Min) % Int64Range + Int64Min
  }

  /** `(req.Page-1)*req.Size` as Go evaluates it on 64-bit ints. */
  function ListOffsetAsWritten(req: ListRoleReq): (r: int)
    ensures Int64Min <= r < -Int64Min
    ensures InInt64(req.page - 1) && InInt64(req.size) && InInt64(ListOffset(req)) ==> r == ListOffset(req)
  {
    var a, b := req.page - 1, req.size;
    NoWrapWhenItFits(a, b);
    Int64(Int64(a) * Int64(b))
  }

  /** When both factors and the product fit in 64 bits, nothing wraps. */
  lemma NoWrapWhenItFits(a: int, b: int)
    ensures InInt64(a) && InInt64(b) && InInt64(a * b) ==> Int64(Int64(a) * Int64(b)) == a * b
  {
    if InInt64(a) && InInt64(b) && InInt64(a * b) {
      Int64OfInRange(a);
      Int64OfInRange(b);
      Int64OfInRange(a * b);
    }
  }

  predicate InInt64(x: int) {
    Int64Min <= x < -Int64Min
  }

  /** A value that fits in 64 bits is kept as it is. */
  lemma Int64OfInRange(x: int)
    requires InInt64(x)
    ensures Int64(x) == x
  {
    assert 0 <= x - Int64Min < Int64Range;
  }

  /**
   * Validation bounds the page from below only. Page 2^62+1 with size 10
   * passes it, the product wraps to -2^63, the clause then has no OFFSET,
   * and a short first page is reported with a negative total.
   */
  lemma ListOffsetAsWrittenWraps()
    ensures var req := ListRoleReq(None, None, None, 0x4000_0000_0000_0001, 10);
      && ValidList(req)
      && ListOffsetAsWritten(req) == Int64Min
      && ListOffset(req) > 0
      && Paging.FindByPage<int, Step>([1, 2, 3], ListOffsetAsWritten(req), 10, None, None).count < 0
  {
    var req := ListRoleReq(None, None, None, 0x4000_0000_0000_0001, 10);
    assert Int64(req.page - 1) * Int64(req.size) == 0x2_8000_0000_0000_0000;
    assert Paging.Window([1, 2, 3], Int64Min, 10) == [1, 2, 3];
  }

  /** The rows a listing selects, in its ORDER BY order (sort, then id descending). */
  function ListMatches(s: DbState, req: ListRoleReq): seq<Role>
    requires WellFormed(s)
  {
    SortBy(BySortThenIdDesc, Select(LiveRows(s), Listing(req.name, req.code, req.status)))
  }

  function StepError(failing: set<Step>, step: Step): Option<Step> {
    if step in failing then Some(step) else None
  }

  /** The page FindByPage returns for the listing's window. */
  function List(s: DbState, req: ListRoleReq, failing: set<Step>): (r: Result<Resp.PageResp<Role>, Error>)
    requires WellFormed(s)
    ensures r.Failure? ==> r.error == ErrServer
    ensures FindPage !in failing && CountPage !in failing ==> r.Success?
    ensures r.Success? ==> forall x | x in r.value.list :: IsLive(s, x.id) && s.roles[x.id] == x
  {
    var matching := ListMatches(s, req);
    assert forall x | x in matching :: IsLive(s, x.id) && s.roles[x.id] == x by {
      forall x | x in matching
        ensures IsLive(s, x.id) && s.roles[x.id] == x
      {
        assert x in multiset(matching);
      }
    }
    var page := Paging.FindByPage(matching, ListOffset(req), req.size,
                                  StepError(failing, FindPage), StepError(failing, CountPage));
    if page.err.Some? then Failure(ErrServer)
    else Success(Resp.NewPageResp(page.result, page.count))
  }

  /** A window of a sorted sequence is sorted, and every row in it comes from the sequence. */
  lemma WindowOfSorted(o: Order, m: seq<Role>, offset: int, limit: int)
    requires SortedBy(o, m) && 0 <= offset
    ensures SortedBy(o, Paging.Window(m, offset, limit))
    ensures forall r | r in Paging.Window(m, offset, limit) :: r in m
  {
    var w := Paging.Window(m, offset, limit);
    if offset <= |m| {
      forall i, j | 0 <= i < j < |w|
        ensures Before(o, w[i], w[j])
      {
        assert w[i] == m[offset + i] && w[j] == m[offset + j];
      }
      forall r | r in w
        ensures r in m
      {
        var i :| 0 <= i < |w| && w[i] == r;
        assert m[offset + i] == r;
      }
    }
  }

  /** The listing's rows are exactly the live roles its filters select, sorted. */
  lemma ListMatchesAreSelected(s: DbState, req: ListRoleReq)
    requires WellFormed(s)
    ensures SortedBy(BySortThenIdDesc, ListMatches(s, req))
    ensures |ListMatches(s, req)| == CountWhere(LiveRows(s), Listing(req.name, req.code, req.status))
    ensures forall r | r in ListMatches(s, req) ::
      r in LiveRows(s) && Matches(Listing(req.name, req.code, req.status), r)
  {
    var sel := Select(LiveRows(s), Listing(req.name, req.code, req.status));
    var m := ListMatches(s, req);
    SortBySorted(BySortThenIdDesc, sel);
    assert |multiset(m)| == |multiset(sel)|;
    forall r | r in m
      ensures r in sel
    {
      assert r in multiset(m);
    }
  }

  /**
   * A listing returns the window at `(Page-1)*Size` of length at most
   * `Size` of the live roles that satisfy every given filter (name and code
   * as substrings, status exactly), ordered by sort and then id descending,
   * and a total that counts every such role.
   */
  lemma ListReturnsFilteredSortedWindow(s: DbState, req: ListRoleReq, failing: set<Step>)
    requires WellFormed(s) && ValidList(req)
    requires FindPage !in failing && CountPage !in failing
    ensures List(s, req, failing).Success?
    ensures var p := List(s, req, failing).value;
      && p.list == Paging.Window(ListMatches(s, req), ListOffset(req), req.size)
      && p.total == CountWhere(LiveRows(s), Listing(req.name, req.code, req.status))
      && |p.list| <= req.size
      && SortedBy(BySortThenIdDesc, p.list)
      && forall r | r in p.list ::
           && IsLive(s, r.id) && s.roles[r.id] == r
           && (req.name.Some? ==> Contains(r.name, req.name.value))
           && (req.code.Some? ==> Contains(r.code, req.code.value))
           && (req.status.Some? ==> r.status == req.status)
  {
    var m := ListMatches(s, req);
    var offset := ListOffset(req);
    ListOffsetOfValidRequest(req);
    ListMatchesAreSelected(s, req);
    WindowOfSorted(BySortThenIdDesc, m, offset, req.size);
    forall r | r in Paging.Window(m, offset, req.size)
      ensures IsLive(s, r.id) && s.roles[r.id] == r
      ensures Matches(Listing(req.name, req.code, req.status), r)
    {
      assert r in m;
    }
    var page := Paging.FindByPage<Role, Step>(m, offset, req.size, None, None);
    assert StepError(failing, FindPage) == None && StepError(failing, CountPage) == None;
    assert List(s, req, failing) == Success(Resp.NewPageResp(page.result, page.count));
    assert page.result == Paging.Window(m, offset, req.size) && page.count == |m|;
  }

  /** A listing fails only when one of its two statements fails, and then with ErrServer. */
  lemma ListFailsOnlyOnStorageError(s: DbState, req: ListRoleReq, failing: set<Step>)
    requires WellFormed(s)
    ensures List(s, req, failing).Failure? ==>
      List(s, req, failing).error == ErrServer && (FindPage in failing || CountPage in failing)
    ensures FindPage in failing ==> List(s, req, failing).Failure?
  {
  }

  // ---------------------------------------------------------------------------
  // ListRoleItem
  // ---------------------------------------------------------------------------

  /** The enabled (status 1) live roles ordered by sort. */
  function EnabledRoles(s: DbState): seq<Role>
    requires WellFormed(s)
  {
    SortBy(BySort, Select(LiveRows(s), StatusIs(1)))
  }

  /** Each role reduced to its id and name, one option per role, in order. */
  function Project(rows: seq<Role>): (r: seq<ListRoleItemResp>)
    ensures |r| == |rows|
    ensures forall i :: 0 <= i < |rows| ==> r[i] == ListRoleItemResp(rows[i].id, rows[i].name)
  {
    if rows == [] then [] else [ListRoleItemResp(rows[0].id, rows[0].name)] + Project(rows[1..])
  }

  function Items(s: DbState, failing: set<Step>): (r: Result<seq<ListRoleItemResp>, Error>)
    requires WellFormed(s)
    ensures r.Failure? <==> FindItems in failing
    ensures r.Failure? ==> r.error == ErrServer
    ensures r.Success? ==> |r.value| == |EnabledRoles(s)|
  {
    if FindItems in failing then Failure(ErrServer) else Success(Project(EnabledRoles(s)))
  }

  /**
   * The options are the enabled live roles, each once, in sort order,
   * reduced to id and name; a failed read gives ErrServer.
   */
  lemma ItemsAreEnabledRolesInSortOrder(s: DbState, failing: set<Step>)
    requires WellFormed(s)
    ensures FindItems in failing ==> Items(s, failing) == Failure(ErrServer)
    ensures FindItems !in failing ==>
      var items := Items(s, failing).value;
      var rows := EnabledRoles(s);
      && Items(s, failing).Success?
      && |items| == |rows| == CountWhere(LiveRows(s), StatusIs(1))
      && (forall i | 0 <= i < |rows| :: items[i] == ListRoleItemResp(rows[i].id, rows[i].name))
      && SortedBy(BySort, rows)
      && (forall r :: r in rows <==> IsLive(s, r.id) && s.roles[r.id] == r && r.status == Some(1))
  {
    var sel := Select(LiveRows(s), StatusIs(1));
    SortBySorted(BySort, sel);
    var rows := EnabledRoles(s);
    assert |multiset(rows)| == |multiset(sel)|;
    forall r
      ensures r in rows <==> r in sel
    {
      assert r in rows <==> r in multiset(rows);
      assert r in sel <==> r in multiset(sel);
    }
  }

  // ---------------------------------------------------------------------------
  // logic.go as written: reading the id of a nil role
  // ---------------------------------------------------------------------------

  /**
   * How logic.go reads a `First()` result: it takes `r.ID` without looking
   * at `err`, and `First()` returns a nil role when nothing matches, so a
   * free name or code dereferences nil (None here).
   */
  function FirstIdAsWritten(found: Option<Role>): Option<bool> {
    match found
    case None => None
    case Some(r) => Some(r.id != 0)
  }

  /** What a call ends in: a returned error (or nil), or a nil-pointer fault. */
  datatype Outcome = Returned(err: Option<Error>) | NilDereference

  /** logic.go's CreateRole as written; a fault unwinds the transaction, so the tables are unchanged. */
  function LogicCreateAsWritten(s: DbState, req: CreateRoleReq, failing: set<Step>): (r: (DbState, Outcome))
    requires WellFormed(s)
    ensures r.1 != Returned(None) ==> r.0 == s
    ensures r.1 == Returned(Some(ErrRoleNameExists)) ==> AnyLive(s, NameIs(req.name, None))
    ensures r.1 == Returned(Some(ErrRoleCodeExists)) ==> AnyLive(s, CodeIs(req.code, None))
  {
    var live := LiveRows(s);
    if CheckName in failing then (s, Returned(Some(ErrServer)))
    else match FirstIdAsWritten(FirstWhere(live, NameIs(req.name, None)))
      case None => (s, NilDereference)
      case Some(true) => (s, Returned(Some(ErrRoleNameExists)))
      case Some(false) =>
        if CheckCode in failing then (s, Returned(Some(ErrServer)))
        else match FirstIdAsWritten(FirstWhere(live, CodeIs(req.code, None)))
          case None => (s, NilDereference)
          case Some(true) => (s, Returned(Some(ErrRoleCodeExists)))
          case Some(false) =>
            if WriteRole in failing then (s, Returned(Some(ErrServer)))
            else (Inserted(s, NewRole(req)), Returned(None))
  }

  /**
   * As written, logic.go's CreateRole can never succeed: a free name (the
   * only way forward) faults on the nil role, while Create, which reads
   * "not found" as "free", succeeds in exactly that case.
   */
  lemma LogicCreateAsWrittenNeverSucceeds(s: DbState, req: CreateRoleReq, failing: set<Step>)
    requires WellFormed(s)
    ensures LogicCreateAsWritten(s, req, failing).1 != Returned(None)
    ensures CheckName !in failing && !AnyLive(s, NameIs(req.name, None)) ==>
      LogicCreateAsWritten(s, req, failing).1 == NilDereference
  {
    CountSeesOnlyLiveRows(s, NameIs(req.name, None));
    var found := FirstWhere(LiveRows(s), NameIs(req.name, None));
    if found.Some? {
      assert IsLive(s, found.value.id);
    }
  }

  /** logic.go's UpdateRole as written, with the same reading of `First()` in the two re-checks. */
  function LogicUpdateAsWritten(s: DbState, req: UpdateRoleReq, failing: set<Step>): (r: (DbState, Outcome))
    requires WellFormed(s)
    ensures r.1 != Returned(None) ==> r.0 == s
    ensures r.1 == NilDereference ==>
      IsLive(s, req.id) && (s.roles[req.id].name != req.name || s.roles[req.id].code != req.code)
  {
    var live := LiveRows(s);
    if LoadRole in failing then (s, Returned(Some(ErrServer)))
    else match FirstWhere(live, IdIs(req.id))
      case None => (s, Returned(Some(ErrRoleNotFound)))
      case Some(stored) =>
        var nameCheck := if stored.name == req.name then Some(false)
                         else FirstIdAsWritten(FirstWhere(live, NameIs(req.name, Some(req.id))));
        if stored.name != req.name && CheckName in failing then (s, Returned(Some(ErrServer)))
        else if nameCheck.None? then (s, NilDereference)
        else if nameCheck.value then (s, Returned(Some(ErrRoleNameExists)))
        else
          var codeCheck := if stored.code == req.code then Some(false)
                           else FirstIdAsWritten(FirstWhere(live, CodeIs(req.code, Some(req.id))));
          if stored.code != req.code && CheckCode in failing then (s, Returned(Some(ErrServer)))
          else if codeCheck.None? then (s, NilDereference)
          else if codeCheck.value then (s, Returned(Some(ErrRoleCodeExists)))
          else if WriteRole in failing then (s, Returned(Some(ErrServer)))
          else (Updated(s, req.id, PatchOf(req)), Returned(None))
  }

  /**
   * As written, renaming a role to a free name faults, where Update renames
   * it; only updates that keep both the name and the code can succeed.
   */
  lemma LogicUpdateAsWrittenFaultsOnRename(s: DbState, req: UpdateRoleReq, failing: set<Step>)
    requires WellFormed(s) && IsLive(s, req.id) && LoadRole !in failing && CheckName !in failing
    requires s.roles[req.id].name != req.name
    requires !exists k :: IsLive(s, k) && k != req.id && s.roles[k].name == req.name
    ensures LogicUpdateAsWritten(s, req, failing).1 == NilDereference
    ensures CheckCode !in failing && WriteRole !in failing && req.code == s.roles[req.id].code ==>
      Update(s, req, failing).1.None?
  {
    LoadSeesOnlyLiveRole(s, req.id);
    CountSeesOnlyLiveRows(s, NameIs(req.name, Some(req.id)));
  }
}
