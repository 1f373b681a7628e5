// The generated query object of internal/types/query/sys_position.gen.go
// (the same code is generated for every table): the two pagination
// helpers, the empty-input guards of Create and Save, and the column map
// behind GetFieldByName.
//
// A query's rows are given as `matching`: every row its WHERE clauses
// select, in its ORDER BY order. The storage engine's answers to the
// statements a helper issues (a failed Find, Count or Scan, an insert) are
// parameters.
module Paging {
  import opened Wrappers

  /**
   * The rows an `OFFSET`/`LIMIT` clause keeps. As GORM builds the clause, an
   * offset <= 0 adds no OFFSET and a negative limit adds no LIMIT, which is
   * how `Offset(-1).Limit(-1)` removes both.
   */
  function Window<T>(rows: seq<T>, offset: int, limit: int): (w: seq<T>)
    ensures |w| <= |rows|
    ensures limit >= 0 ==> |w| <= limit
    ensures offset <= 0 && limit < 0 ==> w == rows
    ensures 0 <= offset <= |rows| ==> |w| <= |rows| - offset
    ensures 0 <= offset <= |rows| ==>
      forall i :: 0 <= i < |w| ==> w[i] == rows[offset + i]
    ensures 0 <= offset <= |rows| && 0 <= limit ==>
      |w| == if |rows| - offset < limit then |rows| - offset else limit
    ensures offset >= |rows| ==> w == []
    ensures forall x :: x in w ==> x in rows
  {
    var start := if offset <= 0 then 0 else if offset < |rows| then offset else |rows|;
    var end := if limit < 0 || |rows| - start <= limit then |rows| else start + limit;
    rows[start..end]
  }

  /** What FindByPage returns, plus whether it issued the separate Count statement. */
  datatype FoundPage<T, E> = FoundPage(result: seq<T>, count: int, err: Option<E>, counted: bool)

  /**
   * `FindByPage(offset, limit)`: find the window; when the find fails, stop
   * with count 0. When `0 < limit` and the page is non-empty but short of
   * the limit, it is the last page and the count is `offset + len(page)`
   * with no further statement; otherwise the count comes from a Count that
   * ignores offset and limit. With a non-negative offset and no failure the
   * count is always the true number of matching rows.
   */
  function FindByPage<T, E>(matching: seq<T>, offset: int, limit: int,
                            findErr: Option<E>, countErr: Option<E>): (r: FoundPage<T, E>)
    ensures findErr.Some? ==> r.count == 0 && r.err == findErr && !r.counted
    ensures findErr.None? ==> r.result == Window(matching, offset, limit)
    ensures r.counted <==> findErr.None? && !(0 < limit && 0 < |r.result| < limit)
    ensures r.counted ==> r.err == countErr
    ensures findErr.None? && !r.counted ==> r.err.None? && r.count == offset + |r.result|
    ensures findErr.None? && countErr.None? && offset >= 0 ==> r.err.None? && r.count == |matching|
  {
    if findErr.Some? then FoundPage([], 0, findErr, false)
    else
      var result := Window(matching, offset, limit);
      var size := |result|;
      if 0 < limit && 0 < size && size < limit then
        FoundPage(result, size + offset, None, false)
      else
        FoundPage(result, if countErr.None? then |matching| else 0, countErr, true)
  }

  /**
   * When the shortcut fires the page really is the last one: it ends at the
   * last matching row, so `offset + len(page)` is the true count.
   */
  lemma ShortPageIsLastPage<T>(matching: seq<T>, offset: int, limit: int)
    requires 0 <= offset && 0 < limit
    requires 0 < |Window(matching, offset, limit)| < limit
    ensures offset + |Window(matching, offset, limit)| == |matching|
    ensures Window(matching, offset, limit) == matching[offset..]
  {
    var w := Window(matching, offset, limit);
    assert offset < |matching|;
    assert |w| == |matching| - offset;
  }

  /**
   * The shortcut trusts the offset: a negative offset selects from the first
   * row, yet `offset + len(page)` still adds it, so whenever the shortcut
   * fires the count comes out short by exactly the offset's magnitude.
   */
  lemma NegativeOffsetUndercounts<T>(matching: seq<T>, offset: int, limit: int)
    requires offset < 0 && 0 < limit
    requires 0 < |Window(matching, offset, limit)| < limit
    ensures FindByPage<T, string>(matching, offset, limit, None, None).count == |matching| + offset < |matching|
  {
  }

  /** What ScanByPage returns, plus whether it issued the Scan. */
  datatype ScannedPage<T, E> = ScannedPage(count: int, result: seq<T>, err: Option<E>, scanned: bool)

  /**
   * `ScanByPage`: count first; scan the window only when the count
   * succeeded. The count ignores offset and limit.
   */
  function ScanByPage<T, E>(matching: seq<T>, offset: int, limit: int,
                            countErr: Option<E>, scanErr: Option<E>): (r: ScannedPage<T, E>)
    ensures r.scanned <==> countErr.None?
    ensures countErr.Some? ==> r.err == countErr && r.count == 0
    ensures countErr.None? ==> r.count == |matching| && r.err == scanErr
    ensures countErr.None? && scanErr.None? ==> r.result == Window(matching, offset, limit)
  {
    if countErr.Some? then ScannedPage(0, [], countErr, false)
    else if scanErr.Some? then ScannedPage(|matching|, [], scanErr, true)
    else ScannedPage(|matching|, Window(matching, offset, limit), None, true)
  }

  /**
   * `Create(values...)` and `Save(values...)`: with no values they return nil
   * and never reach the store; otherwise the store's own insert (or upsert)
   * decides, given here as `write`.
   */
  function Create<S, T, E>(store: S, values: seq<T>, write: (S, seq<T>) -> (S, Option<E>)): (r: (S, Option<E>))
    ensures values == [] ==> r == (store, None)
    ensures values != [] ==> r == write(store, values)
  {
    if |values| == 0 then (store, None) else write(store, values)
  }

  function Save<S, T, E>(store: S, values: seq<T>, upsert: (S, seq<T>) -> (S, Option<E>)): (r: (S, Option<E>))
    ensures values == [] ==> r == (store, None)
    ensures values != [] ==> r == upsert(store, values)
  {
    if |values| == 0 then (store, None) else upsert(store, values)
  }

  /** The field kinds the generator uses for the position table's columns. */
  datatype FieldKind = Int64Field | StringField | TimeField | PlainField

  /** A column expression bound to a table name. */
  datatype Column = Column(table: string, name: string, kind: FieldKind)

  /** The ten column names of the position table. */
  const PositionColumnNames: set<string> := {
    "id", "department_id", "name", "code", "sort",
    "status", "remark", "created_at", "updated_at", "deleted_at"}

  /** The map `fillFieldMap` builds for a table: each column name bound to its column. */
  function ColumnMap(table: string): map<string, Column> {
    map[
      "id" := Column(table, "id", Int64Field),
      "department_id" := Column(table, "department_id", Int64Field),
      "name" := Column(table, "name", StringField),
      "code" := Column(table, "code", StringField),
      "sort" := Column(table, "sort", Int64Field),
      "status" := Column(table, "status", Int64Field),
      "remark" := Column(table, "remark", StringField),
      "created_at" := Column(table, "created_at", TimeField),
      "updated_at" := Column(table, "updated_at", TimeField),
      "deleted_at" := Column(table, "deleted_at", PlainField)]
  }

  /** The map holds exactly the ten columns, each under its own name and bound to the table. */
  lemma ColumnMapHoldsTheTenColumns(table: string)
    ensures ColumnMap(table).Keys == PositionColumnNames
    ensures forall n :: n in ColumnMap(table) ==> ColumnMap(table)[n].name == n && ColumnMap(table)[n].table == table
  {
  }

  /**
   * The query object for the position table: the table its columns are
   * bound to and the name-to-column map that `fillFieldMap` rebuilds.
   */
  class PositionQuery {
    var table: string
    var fieldMap: map<string, Column>

    /** `newPosition`: bind every column to the table, then fill the map. */
    constructor (tableName: string)
      ensures table == tableName
      ensures fieldMap == ColumnMap(tableName)
    {
      table := tableName;
      new;
      FillFieldMap();
    }

    /** `fillFieldMap`: a fresh map holding exactly the ten columns, each bound to the current table. */
    method FillFieldMap()
      modifies this
      ensures table == old(table)
      ensures fieldMap == ColumnMap(table)
    {
      fieldMap := map[];
      fieldMap := fieldMap["id" := Column(table, "id", Int64Field)];
      fieldMap := fieldMap["department_id" := Column(table, "department_id", Int64Field)];
      fieldMap := fieldMap["name" := Column(table, "name", StringField)];
      fieldMap := fieldMap["code" := Column(table, "code", StringField)];
      fieldMap := fieldMap["sort" := Column(table, "sort", Int64Field)];
      fieldMap := fieldMap["status" := Column(table, "status", Int64Field)];
      fieldMap := fieldMap["remark" := Column(table, "remark", StringField)];
      fieldMap := fieldMap["created_at" := Column(table, "created_at", TimeField)];
      fieldMap := fieldMap["updated_at" := Column(table, "updated_at", TimeField)];
      fieldMap := fieldMap["deleted_at" := Column(table, "deleted_at", PlainField)];
    }

    /** `updateTableName` (behind `Table` and `As`): rebind every column to a new table name. */
    method UpdateTableName(tableName: string)
      modifies this
      ensures table == tableName
      ensures fieldMap == ColumnMap(tableName)
    {
      table := tableName;
      FillFieldMap();
    }

    /**
     * `GetFieldByName`: the column registered under a name, and false for a
     * name with no entry. Every column kind here can be ordered, so the
     * `OrderExpr` assertion never fails for a registered name.
     */
    function GetFieldByName(fieldName: string): (r: Option<Column>)
      reads this
      ensures r.Some? <==> fieldName in fieldMap
      ensures r.Some? ==> r.value == fieldMap[fieldName]
    {
      if fieldName in fieldMap then Some(fieldMap[fieldName]) else None
    }
  }

  /** After construction, exactly the ten column names are found, each bound to the table. */
  method FieldLookupAfterConstruction(tableName: string, fieldName: string) returns (found: bool)
    ensures found <==> fieldName in PositionColumnNames
  {
    var p := new PositionQuery(tableName);
    ColumnMapHoldsTheTenColumns(tableName);
    found := p.GetFieldByName(fieldName).Some?;
  }
}
