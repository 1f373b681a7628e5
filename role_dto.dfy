// The role requests and responses of internal/types/dto/role/role.go, with
// their `binding` tags written out as validity predicates. The validator's
// `required` rejects a field's zero value: "" for a string, 0 for an
// integer, nil for a slice; `min`/`max` bound a number or a slice length.
module RoleDto {
  import opened Wrappers

  datatype CreateRoleReq = CreateRoleReq(
    name: string,
    code: string,
    defaultRouter: Option<string>,
    status: Option<int>,
    remark: Option<string>,
    sort: int)

  datatype UpdateRoleReq = UpdateRoleReq(
    id: int,
    name: string,
    code: string,
    defaultRouter: Option<string>,
    status: Option<int>,
    remark: Option<string>,
    sort: int)

  /** `Ids []int64`: a nil slice and an empty one are both modelled as []. */
  datatype DeleteRoleReq = DeleteRoleReq(ids: seq<int>)

  datatype GetRoleReq = GetRoleReq(id: int)

  datatype ListRoleReq = ListRoleReq(
    name: Option<string>,
    code: Option<string>,
    status: Option<int>,
    page: int,
    size: int)

  /** The option record: only the id and the name of a role. */
  datatype ListRoleItemResp = ListRoleItemResp(id: int, name: string)

  /** `sort` carries `required,min=0`: non-zero and at least 0. */
  predicate ValidSort(sort: int) {
    sort != 0 && sort >= 0
  }

  predicate ValidCreate(r: CreateRoleReq) {
    r.name != "" && r.code != "" && ValidSort(r.sort)
  }

  predicate ValidUpdate(r: UpdateRoleReq) {
    r.id != 0 && r.name != "" && r.code != "" && ValidSort(r.sort)
  }

  predicate ValidDelete(r: DeleteRoleReq) {
    |r.ids| >= 1
  }

  predicate ValidGet(r: GetRoleReq) {
    r.id != 0
  }

  predicate ValidList(r: ListRoleReq) {
    r.page != 0 && r.page >= 1 && r.size != 0 && 10 <= r.size <= 100
  }

  /**
   * What the tags accept once `required`'s zero-value rule is folded into
   * the numeric bounds: `required,min=1` and `required,min=10,max=100` need
   * no separate non-zero test, and `required,min=0` leaves only positive sorts.
   */
  lemma ValidRequestsAreExactly(c: CreateRoleReq, u: UpdateRoleReq, d: DeleteRoleReq,
                                g: GetRoleReq, l: ListRoleReq)
    ensures ValidCreate(c) <==> c.name != "" && c.code != "" && c.sort > 0
    ensures ValidUpdate(u) <==> u.id != 0 && u.name != "" && u.code != "" && u.sort > 0
    ensures ValidDelete(d) <==> d.ids != []
    ensures ValidGet(g) <==> g.id != 0
    ensures ValidList(l) <==> l.page >= 1 && 10 <= l.size <= 100
  {
  }

  /** Under the zero-value rule a valid sort is strictly positive, so 0 is never a valid sort. */
  lemma ValidSortIsPositive(sort: int)
    ensures ValidSort(sort) <==> sort > 0
  {
  }

  /** A valid update request is a valid create request plus a non-zero id. */
  lemma ValidUpdateExtendsCreate(r: UpdateRoleReq)
    ensures ValidUpdate(r) <==>
      r.id != 0 &&
      ValidCreate(CreateRoleReq(r.name, r.code, r.defaultRouter, r.status, r.remark, r.sort))
  {
  }
}
