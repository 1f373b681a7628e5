// The error taxonomy of pkg/consts/error.go: every declared error value,
// its message, the error-to-code table and the helpers built on it.
module Consts {
  import opened Wrappers

  /**
   * The package-level error values. Go compares errors by identity, so
   * `Other(text)` stands for any error value not declared in the package,
   * even one whose text equals a declared error's text.
   */
  datatype Error =
    | ErrFail | ErrUnknown
    // authentication
    | ErrUnauthorized | ErrForbidden | ErrInvalidToken | ErrTokenExpired | ErrInvalidSignature
    // request
    | ErrBadRequest | ErrInvalidParam | ErrMissingParam | ErrResourceNotFound
    | ErrMethodNotAllowed | ErrTimeout
    // user
    | ErrUserNotFound | ErrUserExists | ErrInvalidPassword | ErrAccountLocked | ErrOperationFailed
    // system
    | ErrServer | ErrServiceBusy | ErrConfig | ErrNotFound
    // role
    | ErrRoleNotFound | ErrRoleNameExists | ErrRoleCodeExists | ErrRoleSuperAdmin
    // department
    | ErrDepartmentNotFound | ErrDepartmentNameExists | ErrDepartmentCodeExists
    | ErrDepartmentSuperAdmin | ErrDepartmentHasChildren | ErrDepartmentHasUsers
    // position
    | ErrPositionNotFound | ErrPositionNameExists | ErrPositionCodeExists | ErrPositionHasUsers
    // menu
    | ErrMenuNotFound | ErrMenuNameExists | ErrMenuParentNotFound | ErrMenuHasChildren | ErrMenuHasRoles
    // any error value created elsewhere
    | Other(text: string)

  /** What `err.Error()` returns for each value. */
  function Text(e: Error): string {
    match e
    case ErrFail => "fail"
    case ErrUnknown => "未知错误"
    case ErrUnauthorized => "无权限访问"
    case ErrForbidden => "禁止访问"
    case ErrInvalidToken => "无效的令牌"
    case ErrTokenExpired => "令牌已过期"
    case ErrInvalidSignature => "无效的签名"
    case ErrBadRequest => "无效的请求"
    case ErrInvalidParam => "无效的参数"
    case ErrMissingParam => "缺少必要参数"
    case ErrResourceNotFound => "资源不存在"
    case ErrMethodNotAllowed => "方法不允许"
    case ErrTimeout => "请求超时"
    case ErrUserNotFound => "用户不存在"
    case ErrUserExists => "用户已存在"
    case ErrInvalidPassword => "密码错误"
    case ErrAccountLocked => "账号已锁定"
    case ErrOperationFailed => "操作失败"
    case ErrServer => "系统错误"
    case ErrServiceBusy => "服务繁忙"
    case ErrConfig => "配置错误"
    case ErrNotFound => "未找到"
    case ErrRoleNotFound => "角色不存在"
    case ErrRoleNameExists => "角色名称已存在"
    case ErrRoleCodeExists => "角色编码已存在"
    case ErrRoleSuperAdmin => "超级管理员不允许删除"
    case ErrDepartmentNotFound => "部门不存在"
    case ErrDepartmentNameExists => "部门名称已存在"
    case ErrDepartmentCodeExists => "部门编码已存在"
    case ErrDepartmentSuperAdmin => "超级管理员不允许删除"
    case ErrDepartmentHasChildren => "存在子部门"
    case ErrDepartmentHasUsers => "部门下存在用户"
    case ErrPositionNotFound => "岗位不存在"
    case ErrPositionNameExists => "岗位名称已存在"
    case ErrPositionCodeExists => "岗位编码已存在"
    case ErrPositionHasUsers => "岗位下存在用户"
    case ErrMenuNotFound => "菜单不存在"
    case ErrMenuNameExists => "菜单名称已存在"
    case ErrMenuParentNotFound => "父菜单不存在"
    case ErrMenuHasChildren => "菜单下存在子菜单"
    case ErrMenuHasRoles => "菜单被角色使用"
    case Other(t) => t
  }

  /** The `code` table: the registered code of an error value, None when it has no entry. */
  function Code(e: Error): (c: Option<int>)
    ensures c.None? <==> e.Other?
  {
    match e
    case ErrFail => Some(0)
    case ErrUnknown => Some(-1)
    case ErrUnauthorized => Some(1001)
    case ErrForbidden => Some(1002)
    case ErrInvalidToken => Some(1003)
    case ErrTokenExpired => Some(1004)
    case ErrInvalidSignature => Some(1005)
    case ErrBadRequest => Some(2001)
    case ErrInvalidParam => Some(2002)
    case ErrMissingParam => Some(2003)
    case ErrResourceNotFound => Some(2004)
    case ErrMethodNotAllowed => Some(2005)
    case ErrTimeout => Some(2006)
    case ErrUserNotFound => Some(3001)
    case ErrUserExists => Some(3002)
    case ErrInvalidPassword => Some(3003)
    case ErrAccountLocked => Some(3004)
    case ErrOperationFailed => Some(3005)
    case ErrServer => Some(5001)
    case ErrServiceBusy => Some(5002)
    case ErrConfig => Some(5003)
    case ErrNotFound => Some(5004)
    case ErrRoleNotFound => Some(3101)
    case ErrRoleNameExists => Some(3102)
    case ErrRoleCodeExists => Some(3103)
    case ErrRoleSuperAdmin => Some(3104)
    case ErrDepartmentNotFound => Some(3201)
    case ErrDepartmentNameExists => Some(3202)
    case ErrDepartmentCodeExists => Some(3203)
    case ErrDepartmentSuperAdmin => Some(3204)
    case ErrDepartmentHasChildren => Some(3205)
    case ErrDepartmentHasUsers => Some(3206)
    case ErrPositionNotFound => Some(3301)
    case ErrPositionNameExists => Some(3302)
    case ErrPositionCodeExists => Some(3303)
    case ErrPositionHasUsers => Some(3304)
    case ErrMenuNotFound => Some(3401)
    case ErrMenuNameExists => Some(3402)
    case ErrMenuParentNotFound => Some(3403)
    case ErrMenuHasChildren => Some(3404)
    case ErrMenuHasRoles => Some(3405)
    case Other(_) => None
  }

  /** Reading the table backwards: the declared error registered under a code. */
  function ErrorWithCode(c: int): Option<Error> {
    if c == 0 then Some(ErrFail)
    else if c == -1 then Some(ErrUnknown)
    else if c == 1001 then Some(ErrUnauthorized)
    else if c == 1002 then Some(ErrForbidden)
    else if c == 1003 then Some(ErrInvalidToken)
    else if c == 1004 then Some(ErrTokenExpired)
    else if c == 1005 then Some(ErrInvalidSignature)
    else if c == 2001 then Some(ErrBadRequest)
    else if c == 2002 then Some(ErrInvalidParam)
    else if c == 2003 then Some(ErrMissingParam)
    else if c == 2004 then Some(ErrResourceNotFound)
    else if c == 2005 then Some(ErrMethodNotAllowed)
    else if c == 2006 then Some(ErrTimeout)
    else if c == 3001 then Some(ErrUserNotFound)
    else if c == 3002 then Some(ErrUserExists)
    else if c == 3003 then Some(ErrInvalidPassword)
    else if c == 3004 then Some(ErrAccountLocked)
    else if c == 3005 then Some(ErrOperationFailed)
    else if c == 5001 then Some(ErrServer)
    else if c == 5002 then Some(ErrServiceBusy)
    else if c == 5003 then Some(ErrConfig)
    else if c == 5004 then Some(ErrNotFound)
    else if c == 3101 then Some(ErrRoleNotFound)
    else if c == 3102 then Some(ErrRoleNameExists)
    else if c == 3103 then Some(ErrRoleCodeExists)
    else if c == 3104 then Some(ErrRoleSuperAdmin)
    else if c == 3201 then Some(ErrDepartmentNotFound)
    else if c == 3202 then Some(ErrDepartmentNameExists)
    else if c == 3203 then Some(ErrDepartmentCodeExists)
    else if c == 3204 then Some(ErrDepartmentSuperAdmin)
    else if c == 3205 then Some(ErrDepartmentHasChildren)
    else if c == 3206 then Some(ErrDepartmentHasUsers)
    else if c == 3301 then Some(ErrPositionNotFound)
    else if c == 3302 then Some(ErrPositionNameExists)
    else if c == 3303 then Some(ErrPositionCodeExists)
    else if c == 3304 then Some(ErrPositionHasUsers)
    else if c == 3401 then Some(ErrMenuNotFound)
    else if c == 3402 then Some(ErrMenuNameExists)
    else if c == 3403 then Some(ErrMenuParentNotFound)
    else if c == 3404 then Some(ErrMenuHasChildren)
    else if c == 3405 then Some(ErrMenuHasRoles)
    else None
  }

  /** Every registered code leads back to the one error it is registered for. */
  lemma {:induction false} CodeTableInvertible(e: Error)
    ensures Code(e).Some? ==> ErrorWithCode(Code(e).value) == Some(e)
  {
    match e
    case Other(_) =>
    case _ =>
  }

  /** The codes in the table are pairwise distinct. */
  lemma CodesDistinct(a: Error, b: Error)
    requires Code(a).Some? && Code(a) == Code(b)
    ensures a == b
  {
    CodeTableInvertible(a);
    CodeTableInvertible(b);
  }

  /**
   * `GC`: 200 for nil, the table code of a registered error and the code of
   * ErrUnknown (-1) for any other error. No error is ever reported as 200.
   */
  function GC(err: Option<Error>): (c: int)
    ensures err.None? <==> c == 200
    ensures err.Some? && err.value.Other? ==> c == -1
    ensures err.Some? && !err.value.Other? ==> Some(c) == Code(err.value)
  {
    match err
    case None => 200
    case Some(e) =>
      match Code(e)
      case Some(c) => c
      case None => Code(ErrUnknown).value
  }

  /** The codes of the role errors, of ErrServer and of the two errors the response helpers use. */
  lemma RoleErrorCodes()
    ensures GC(Some(ErrRoleNotFound)) == 3101 && GC(Some(ErrRoleNameExists)) == 3102
    ensures GC(Some(ErrRoleCodeExists)) == 3103 && GC(Some(ErrRoleSuperAdmin)) == 3104
    ensures GC(Some(ErrServer)) == 5001 && GC(Some(ErrInvalidParam)) == 2002
    ensures GC(Some(ErrUnauthorized)) == 1001 && GC(Some(ErrNotFound)) == 5004
  {
  }

  /** The two declared "super admin" errors share a message but not a code. */
  lemma SuperAdminErrorsShareTextNotCode()
    ensures Text(ErrRoleSuperAdmin) == Text(ErrDepartmentSuperAdmin)
    ensures GC(Some(ErrRoleSuperAdmin)) != GC(Some(ErrDepartmentSuperAdmin))
  {
  }

  /**
   * Codes key on error identity, not text: an undeclared error with a
   * declared error's message still gets -1.
   */
  lemma CodesFollowIdentityNotText(e: Error)
    requires !e.Other?
    ensures GC(Some(Other(Text(e)))) == -1
    ensures e != ErrUnknown ==> GC(Some(Other(Text(e)))) != GC(Some(e))
  {
    if e != ErrUnknown {
      if GC(Some(e)) == -1 {
        CodesDistinct(e, ErrUnknown);
      }
    }
  }

  /** `IsSuccess` holds exactly for the nil error, which is exactly when GC gives 200. */
  function IsSuccess(err: Option<Error>): (b: bool)
    ensures b <==> GC(err) == 200
  {
    err.None?
  }

  /** `GetMessage`: "ok" for nil, otherwise the error's own text. */
  function GetMessage(err: Option<Error>): (m: string)
    ensures err.None? ==> m == "ok"
    ensures err.Some? ==> m == Text(err.value)
  {
    match err
    case None => "ok"
    case Some(e) => Text(e)
  }
}
