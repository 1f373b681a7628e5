// The two tables the role code works on, `sys_role` and `sys_user_role`,
// and the statements it issues against them through the generated query
// layer. The role model carries `gorm.DeletedAt` (pkg/database/gen.go,
// SetupModelRelations), so a deleted role stays in the table with its
// marker set, every default read skips it and a delete only sets the
// marker. Rows of the join table have no marker and are erased.
module Tables {
  import opened Wrappers

  /** A row of the role table; `deleted` is the soft-delete marker (`deleted_at` not null). */
  datatype Role = Role(
    id: int,
    name: string,
    code: string,
    defaultRouter: Option<string>,
    status: Option<int>,
    remark: Option<string>,
    sort: int,
    deleted: bool)

  /** A row of the user-role join table. */
  datatype UserRole = UserRole(id: int, userId: int, roleId: int)

  /** Both tables and the role table's auto-increment counter. */
  datatype DbState = DbState(roles: map<int, Role>, userRoles: seq<UserRole>, nextId: int)

  /** Every role is stored under its own id, and the counter is past every id ever handed out. */
  ghost predicate WellFormed(s: DbState) {
    && 0 < s.nextId
    && forall k | k in s.roles :: s.roles[k].id == k && 0 < k < s.nextId
  }

  predicate IsLive(s: DbState, k: int) {
    k in s.roles && !s.roles[k].deleted
  }

  // ---------------------------------------------------------------------------
  // WHERE clauses and ORDER BY orders
  // ---------------------------------------------------------------------------

  /** `sub` occurs in `s` starting at position `i`. */
  predicate OccursAt(s: string, sub: string, i: int) {
    0 <= i <= |s| - |sub| && sub == s[i..i + |sub|]
  }

  /** `sub` occurs in `s`: what `LIKE '%sub%'` tests when `sub` holds no wildcard. */
  function Contains(s: string, sub: string): (r: bool)
    ensures r <==> exists i :: OccursAt(s, sub, i)
    decreases |s|
  {
    if sub <= s then
      assert OccursAt(s, sub, 0);
      true
    else if s == [] then
      assert forall i :: !OccursAt(s, sub, i);
      false
    else
      var r := Contains(s[1..], sub);
      assert forall i :: OccursAt(s[1..], sub, i) <==> OccursAt(s, sub, i + 1);
      assert !OccursAt(s, sub, 0);
      assert forall i :: OccursAt(s, sub, i) ==> i == 0 || OccursAt(s[1..], sub, i - 1);
      r
  }

  /** The conditions the role code puts in its WHERE clauses. */
  datatype Filter =
    | IdIs(id: int)
    | NameIs(name: string, except: Option<int>)
    | CodeIs(code: string, except: Option<int>)
    | IdIn(ids: seq<int>)
    | IdInWithCode(ids: seq<int>, code: string)
    | Listing(nameLike: Option<string>, codeLike: Option<string>, statusIs: Option<int>)
    | StatusIs(wanted: int)

  predicate Matches(f: Filter, r: Role) {
    match f
    case IdIs(id) => r.id == id
    case NameIs(n, except) => r.name == n && except != Some(r.id)
    case CodeIs(c, except) => r.code == c && except != Some(r.id)
    case IdIn(ids) => r.id in ids
    case IdInWithCode(ids, c) => r.id in ids && r.code == c
    case Listing(n, c, st) =>
      && (n.Some? ==> Contains(r.name, n.value))
      && (c.Some? ==> Contains(r.code, c.value))
      && (st.Some? ==> r.status == st)
    case StatusIs(st) => r.status == Some(st)
  }

  /** `ORDER BY sort, id DESC` and `ORDER BY sort`. */
  datatype Order = BySortThenIdDesc | BySort

  /** `a` may come before `b`: a total preorder for each order. */
  predicate Before(o: Order, a: Role, b: Role) {
    match o
    case BySortThenIdDesc => a.sort < b.sort || (a.sort == b.sort && a.id >= b.id)
    case BySort => a.sort <= b.sort
  }

  predicate SortedBy(o: Order, rows: seq<Role>) {
    forall i, j :: 0 <= i < j < |rows| ==> Before(o, rows[i], rows[j])
  }

  /** Each order is a total preorder. */
  lemma BeforeIsTotalPreorder(o: Order, a: Role, b: Role, c: Role)
    ensures Before(o, a, b) || Before(o, b, a)
    ensures Before(o, a, b) && Before(o, b, c) ==> Before(o, a, c)
  {
  }

  /** Insert `x` before the first row it may precede; rows it ties with and that came first stay first. */
  function InsertBy(o: Order, x: Role, rows: seq<Role>): (r: seq<Role>)
    ensures multiset(r) == multiset(rows) + multiset{x}
  {
    if rows == [] || Before(o, x, rows[0]) then [x] + rows
    else
      assert rows == [rows[0]] + rows[1..];
      [rows[0]] + InsertBy(o, x, rows[1..])
  }

  lemma {:induction false} InsertBySorted(o: Order, x: Role, rows: seq<Role>)
    requires SortedBy(o, rows)
    ensures SortedBy(o, InsertBy(o, x, rows))
  {
    var r := InsertBy(o, x, rows);
    if rows == [] {
    } else if Before(o, x, rows[0]) {
      forall j | 0 <= j < |rows|
        ensures Before(o, x, rows[j])
      {
        BeforeIsTotalPreorder(o, x, rows[0], rows[j]);
      }
    } else {
      var rest := InsertBy(o, x, rows[1..]);
      InsertBySorted(o, x, rows[1..]);
      BeforeIsTotalPreorder(o, x, rows[0], x);
      forall j | 0 <= j < |rest|
        ensures Before(o, rows[0], rest[j])
      {
        assert rest[j] in multiset(rest);
        assert rest[j] == x || rest[j] in rows[1..];
      }
      assert r == [rows[0]] + rest;
    }
  }

  /** The rows of a query in its ORDER BY order. */
  function SortBy(o: Order, rows: seq<Role>): (r: seq<Role>)
    ensures multiset(r) == multiset(rows)
  {
    if rows == [] then [] else
      assert rows == [rows[0]] + rows[1..];
      InsertBy(o, rows[0], SortBy(o, rows[1..]))
  }

  /** Sorting yields the rows in ORDER BY order; with the multiset ensures of SortBy, a sorted permutation. */
  lemma {:induction false} SortBySorted(o: Order, rows: seq<Role>)
    ensures SortedBy(o, SortBy(o, rows))
  {
    if rows != [] {
      SortBySorted(o, rows[1..]);
      InsertBySorted(o, rows[0], SortBy(o, rows[1..]));
    }
  }

  // ---------------------------------------------------------------------------
  // Reading the role table
  // ---------------------------------------------------------------------------

  /** The live roles with an id of at least `k`, in increasing id order. */
  function LiveFrom(s: DbState, k: int): (r: seq<Role>)
    requires WellFormed(s)
    ensures forall x :: x in r <==> k <= x.id && x.id in s.roles && s.roles[x.id] == x && !x.deleted
    ensures IdsIncreasing(r)
    decreases s.nextId - k
  {
    if k >= s.nextId then []
    else
      var rest := LiveFrom(s, k + 1);
      if IsLive(s, k) then [s.roles[k]] + rest else rest
  }

  /** The rows every default read sees: the live roles, in primary-key order. */
  function LiveRows(s: DbState): (r: seq<Role>)
    requires WellFormed(s)
    ensures forall x :: x in r <==> x.id in s.roles && s.roles[x.id] == x && !x.deleted
    ensures IdsIncreasing(r)
  {
    LiveFrom(s, 0)
  }

  /** Rows in strictly increasing primary-key order, so no row appears twice. */
  predicate IdsIncreasing(rows: seq<Role>) {
    forall i, j :: 0 <= i < j < |rows| ==> rows[i].id < rows[j].id
  }

  /** `First()`: the first row in primary-key order that satisfies the clause, nil when none does. */
  function FirstWhere(rows: seq<Role>, f: Filter): (r: Option<Role>)
    ensures r.Some? ==> r.value in rows && Matches(f, r.value)
    ensures r.None? <==> forall x :: x in rows ==> !Matches(f, x)
  {
    if rows == [] then None
    else if Matches(f, rows[0]) then Some(rows[0])
    else FirstWhere(rows[1..], f)
  }

  /** What makes `First()` the FIRST match: every row before the one it returns fails the clause. */
  lemma {:induction false} FirstWhereIsFirst(rows: seq<Role>, f: Filter)
    ensures FirstWhere(rows, f).Some? ==>
      exists i :: 0 <= i < |rows| && rows[i] == FirstWhere(rows, f).value &&
        forall j :: 0 <= j < i ==> !Matches(f, rows[j])
  {
    if rows != [] && !Matches(f, rows[0]) {
      var r := FirstWhere(rows[1..], f);
      FirstWhereIsFirst(rows[1..], f);
      if r.Some? {
        var i :| 0 <= i < |rows[1..]| && rows[1..][i] == r.value &&
          forall j :: 0 <= j < i ==> !Matches(f, rows[1..][j]);
        assert forall j :: 0 < j < i + 1 ==> rows[j] == rows[1..][j - 1];
        assert rows[i + 1] == r.value;
      }
    }
  }

  /** In primary-key order no matching row has a smaller id than the one `First()` returns. */
  lemma FirstWhereHasLeastId(rows: seq<Role>, f: Filter)
    requires IdsIncreasing(rows)
    ensures FirstWhere(rows, f).Some? ==>
      forall x :: x in rows && x.id < FirstWhere(rows, f).value.id ==> !Matches(f, x)
  {
    FirstWhereIsFirst(rows, f);
    if FirstWhere(rows, f).Some? {
      var i :| 0 <= i < |rows| && rows[i] == FirstWhere(rows, f).value &&
        forall j :: 0 <= j < i ==> !Matches(f, rows[j]);
      forall x | x in rows && x.id < rows[i].id
        ensures !Matches(f, x)
      {
        var k :| 0 <= k < |rows| && rows[k] == x;
        assert k < i;
      }
    }
  }

  /** `Find()`: the rows that satisfy the clause, in their original order. */
  function Select(rows: seq<Role>, f: Filter): (r: seq<Role>)
    ensures forall x :: x in r <==> x in rows && Matches(f, x)
    ensures IdsIncreasing(rows) ==> IdsIncreasing(r)
  {
    if rows == [] then []
    else
      var rest := Select(rows[1..], f);
      assert rows == [rows[0]] + rows[1..];
      assert IdsIncreasing(rows) ==> forall y | y in rest :: rows[0].id < y.id by {
        if IdsIncreasing(rows) {
          forall y | y in rest
            ensures rows[0].id < y.id
          {
            var k :| 0 <= k < |rows[1..]| && rows[1..][k] == y;
            assert rows[k + 1] == y;
          }
        }
      }
      if Matches(f, rows[0]) then [rows[0]] + rest else rest
  }

  /** `Count()`: how many rows satisfy the clause. */
  function CountWhere(rows: seq<Role>, f: Filter): (n: nat)
    ensures n == |Select(rows, f)|
  {
    if rows == [] then 0
    else (if Matches(f, rows[0]) then 1 else 0) + CountWhere(rows[1..], f)
  }

  /** `First()` finds a row exactly when `Count()` is positive. */
  lemma FirstFindsIffCountPositive(rows: seq<Role>, f: Filter)
    ensures FirstWhere(rows, f).Some? <==> CountWhere(rows, f) > 0
  {
    var sel := Select(rows, f);
    if FirstWhere(rows, f).Some? {
      assert FirstWhere(rows, f).value in sel;
    }
    if |sel| > 0 {
      assert sel[0] in sel;
    }
  }

  // ---------------------------------------------------------------------------
  // Writing the tables
  // ---------------------------------------------------------------------------

  /** `INSERT`: the row gets the next auto-increment id and starts live. */
  function Inserted(s: DbState, r: Role): (t: DbState)
    ensures t.userRoles == s.userRoles && t.nextId == s.nextId + 1
    ensures t.roles.Keys == s.roles.Keys + {s.nextId}
    ensures forall k | k in s.roles && k != s.nextId :: t.roles[k] == s.roles[k]
    ensures t.roles[s.nextId].(id := r.id, deleted := r.deleted) == r
    ensures WellFormed(s) ==> s.nextId !in s.roles && IsLive(t, s.nextId) && WellFormed(t)
  {
    s.(roles := s.roles[s.nextId := r.(id := s.nextId, deleted := false)], nextId := s.nextId + 1)
  }

  /**
   * The values an update passes as a struct. GORM's struct `Updates` writes
   * only non-zero fields: "" names and codes, nil pointers and a 0 sort leave
   * the stored value as it is.
   */
  datatype RolePatch = RolePatch(
    name: string,
    code: string,
    defaultRouter: Option<string>,
    status: Option<int>,
    remark: Option<string>,
    sort: int)

  function Patched(r: Role, p: RolePatch): (n: Role)
    ensures n.id == r.id && n.deleted == r.deleted
    ensures p.name != "" ==> n.name == p.name
    ensures p.code != "" ==> n.code == p.code
    ensures p.sort != 0 ==> n.sort == p.sort
    ensures p.defaultRouter.Some? ==> n.defaultRouter == p.defaultRouter
    ensures p.status.Some? ==> n.status == p.status
    ensures p.remark.Some? ==> n.remark == p.remark
    ensures n.name != r.name ==> n.name == p.name
    ensures n.code != r.code ==> n.code == p.code
    ensures n.sort != r.sort ==> n.sort == p.sort
    ensures n.defaultRouter != r.defaultRouter ==> n.defaultRouter == p.defaultRouter
    ensures n.status != r.status ==> n.status == p.status
    ensures n.remark != r.remark ==> n.remark == p.remark
  {
    r.(name := if p.name != "" then p.name else r.name,
       code := if p.code != "" then p.code else r.code,
       defaultRouter := if p.defaultRouter.Some? then p.defaultRouter else r.defaultRouter,
       status := if p.status.Some? then p.status else r.status,
       remark := if p.remark.Some? then p.remark else r.remark,
       sort := if p.sort != 0 then p.sort else r.sort)
  }

  /** A patch written twice leaves the row as the first write left it. */
  lemma PatchIsIdempotent(r: Role, p: RolePatch)
    ensures Patched(Patched(r, p), p) == Patched(r, p)
  {
  }

  /** A patch whose every field is the zero value writes nothing. */
  lemma ZeroPatchKeepsRow(r: Role)
    ensures Patched(r, RolePatch("", "", None, None, None, 0)) == r
  {
  }

  /** `UPDATE ... WHERE id = ? AND deleted_at IS NULL`. */
  function Updated(s: DbState, id: int, p: RolePatch): (t: DbState)
    ensures t.roles.Keys == s.roles.Keys && t.userRoles == s.userRoles && t.nextId == s.nextId
    ensures forall k | k in s.roles && k != id :: t.roles[k] == s.roles[k]
    ensures IsLive(s, id) ==> t.roles[id] == Patched(s.roles[id], p)
    ensures !IsLive(s, id) ==> t == s
    ensures WellFormed(s) ==> WellFormed(t)
  {
    if IsLive(s, id) then s.(roles := s.roles[id := Patched(s.roles[id], p)]) else s
  }

  /** The soft `DELETE ... WHERE id IN ?`: marks every listed role deleted, erases nothing. */
  function SoftDeleted(s: DbState, ids: seq<int>): (r: DbState)
    ensures r.roles.Keys == s.roles.Keys && r.userRoles == s.userRoles
    ensures forall k :: k in s.roles && k in ids ==> r.roles[k].deleted
    ensures forall k :: k in s.roles && k !in ids ==> r.roles[k] == s.roles[k]
    ensures forall k :: k in s.roles ==> r.roles[k].(deleted := s.roles[k].deleted) == s.roles[k]
    ensures r.nextId == s.nextId && (WellFormed(s) ==> WellFormed(r))
  {
    s.(roles := map k | k in s.roles :: if k in ids then s.roles[k].(deleted := true) else s.roles[k])
  }

  /** The join rows that survive `DELETE FROM sys_user_role WHERE role_id IN ?`. */
  function WithoutRoles(joins: seq<UserRole>, ids: seq<int>): (r: seq<UserRole>)
    ensures forall j :: j in r <==> j in joins && j.roleId !in ids
  {
    if joins == [] then []
    else
      var rest := WithoutRoles(joins[1..], ids);
      if joins[0].roleId in ids then rest else [joins[0]] + rest
  }

  /** `DELETE FROM sys_user_role WHERE role_id IN ?`: the role table is untouched. */
  function JoinsDeleted(s: DbState, ids: seq<int>): (t: DbState)
    ensures t.roles == s.roles && t.nextId == s.nextId
    ensures forall j :: j in t.userRoles <==> j in s.userRoles && j.roleId !in ids
    ensures WellFormed(s) ==> WellFormed(t)
  {
    s.(userRoles := WithoutRoles(s.userRoles, ids))
  }

  /** The two delete statements touch different tables, so their order does not matter. */
  lemma DeletesCommute(s: DbState, ids: seq<int>)
    ensures JoinsDeleted(SoftDeleted(s, ids), ids) == SoftDeleted(JoinsDeleted(s, ids), ids)
  {
  }

  /**
   * The two tables as the storage engine holds them. Reads are functions of
   * the current state; each write method is one statement.
   */
  class Store {
    var roles: map<int, Role>
    var userRoles: seq<UserRole>
    var nextId: int

    function State(): DbState
      reads this
    {
      DbState(roles, userRoles, nextId)
    }

    ghost predicate Valid()
      reads this
    {
      WellFormed(State())
    }

    constructor (s: DbState)
      requires WellFormed(s)
      ensures State() == s && Valid()
    {
      roles, userRoles, nextId := s.roles, s.userRoles, s.nextId;
    }

    /** `First()` under the default scope: a live role satisfying the clause, nil when none does. */
    function First(f: Filter): (r: Option<Role>)
      reads this
      requires Valid()
      ensures r.Some? ==> IsLive(State(), r.value.id) && roles[r.value.id] == r.value && Matches(f, r.value)
    {
      FirstWhere(LiveRows(State()), f)
    }

    /** `Count()` under the default scope: positive exactly when `First()` finds a row. */
    function Count(f: Filter): (n: nat)
      reads this
      requires Valid()
      ensures n > 0 <==> First(f).Some?
    {
      FirstFindsIffCountPositive(LiveRows(State()), f);
      CountWhere(LiveRows(State()), f)
    }

    /** `Find()` under the default scope, ordered as asked. */
    function Find(f: Filter, o: Option<Order>): (r: seq<Role>)
      reads this
      requires Valid()
      ensures o.Some? ==> SortedBy(o.value, r)
      ensures o.None? ==> IdsIncreasing(r)
    {
      var rows := Select(LiveRows(State()), f);
      if o.Some? then
        SortBySorted(o.value, rows);
        SortBy(o.value, rows)
      else rows
    }

    /** `First()` returns the live match with the smallest id, and nil only when no live role matches. */
    lemma FirstIsLeastLiveMatch(f: Filter)
      requires Valid()
      ensures First(f).Some? ==> forall k | IsLive(State(), k) && k < First(f).value.id :: !Matches(f, roles[k])
      ensures First(f).None? <==> forall k | IsLive(State(), k) :: !Matches(f, roles[k])
    {
      var live := LiveRows(State());
      assert forall k | IsLive(State(), k) :: roles[k] in live;
      FirstWhereHasLeastId(live, f);
    }

    /** `Find()` returns every live match, and nothing else. */
    lemma FindIsLiveMatches(f: Filter, o: Option<Order>)
      requires Valid()
      ensures forall x :: x in Find(f, o) <==> IsLive(State(), x.id) && roles[x.id] == x && Matches(f, x)
    {
      var rows := Select(LiveRows(State()), f);
      if o.Some? {
        assert forall x :: x in SortBy(o.value, rows) <==> x in multiset(rows);
      }
    }

    /** Beginning a transaction: remember the state to roll back to. */
    method Snapshot() returns (s: DbState)
      requires Valid()
      ensures s == State() && WellFormed(s)
    {
      s := State();
    }

    /** Rolling a transaction back. */
    method Rollback(s: DbState)
      requires WellFormed(s)
      modifies this
      ensures State() == s && Valid()
    {
      roles, userRoles, nextId := s.roles, s.userRoles, s.nextId;
    }

    method Insert(r: Role) returns (id: int)
      requires Valid()
      modifies this
      ensures id == old(nextId) && id !in old(roles)
      ensures State() == Inserted(old(State()), r) && Valid()
    {
      id := nextId;
      roles := roles[id := r.(id := id, deleted := false)];
      nextId := nextId + 1;
    }

    method UpdateWhereId(id: int, p: RolePatch)
      requires Valid()
      modifies this
      ensures State() == Updated(old(State()), id, p) && Valid()
    {
      if id in roles && !roles[id].deleted {
        roles := roles[id := Patched(roles[id], p)];
      }
    }

    method SoftDeleteWhereIdIn(ids: seq<int>)
      requires Valid()
      modifies this
      ensures State() == SoftDeleted(old(State()), ids) && Valid()
    {
      roles := map k | k in roles :: if k in ids then roles[k].(deleted := true) else roles[k];
    }

    method DeleteUserRolesWhereRoleIdIn(ids: seq<int>)
      requires Valid()
      modifies this
      ensures State() == JoinsDeleted(old(State()), ids) && Valid()
    {
      userRoles := WithoutRoles(userRoles, ids);
    }
  }
}
