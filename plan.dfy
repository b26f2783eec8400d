/**
 * The render plan: for each query part, the clause regions it opens and the
 * children it renders inside them, in render order, as resolved for one
 * render context (dialect and declaration modes). This is where the dialect
 * rule table and the declare/reference choice take effect; the dispatcher
 * only walks the resulting scopes.
 */
module Plan {
  import opened Wrappers
  import opened Clauses
  import opened Paths
  import opened Scopes
  import opened Dialects
  import opened Ast

  /** A field: its name as a reference, a bind value, or an alias (declared or referenced). */
  function FieldScope(f: FieldExpr, st: Settings): Scope
    decreases f
  {
    match f
    case NamedField(_) => Scope(Field, [Scope(FieldReference, [])])
    case Val(_) => Scope(Field, [Scope(FieldValue, [])])
    case FieldAs(inner, _) =>
      if st.declareFields then Scope(Field, [Scope(FieldAlias, [FieldScope(inner, st)])])
      else Scope(Field, [Scope(FieldReference, [])])
  }

  function FieldScopes(fs: seq<FieldExpr>, st: Settings): seq<Scope>
    decreases fs
  {
    if fs == [] then [] else [FieldScope(fs[0], st)] + FieldScopes(fs[1..], st)
  }

  /** A row value expression: FIELD_ROW holding one field per component. */
  function RowScope(fs: seq<FieldExpr>, st: Settings): Scope
  {
    Scope(FieldRow, FieldScopes(fs, st))
  }

  function RowScopes(rows: seq<seq<FieldExpr>>, st: Settings): seq<Scope>
    decreases rows
  {
    if rows == [] then [] else [RowScope(rows[0], st)] + RowScopes(rows[1..], st)
  }

  /** A table: a reference, an alias (declared or referenced), or a VALUES constructor. */
  function TableScope(t: TableExpr, st: Settings): Scope
    decreases t
  {
    match t
    case NamedTable(_) => Scope(Table, [Scope(TableReference, [])])
    case TableAs(inner, _) =>
      if st.declareTables then Scope(Table, [Scope(TableAlias, [TableScope(inner, st)])])
      else Scope(Table, [Scope(TableReference, [])])
    case ValuesTable(rows) => Scope(Table, [Scope(TableValues, RowScopes(rows, st))])
  }

  function TableScopes(ts: seq<TableExpr>, st: Settings): seq<Scope>
    decreases ts
  {
    if ts == [] then [] else [TableScope(ts[0], st)] + TableScopes(ts[1..], st)
  }

  function OperandScope(o: Operand, st: Settings): Scope
  {
    match o
    case Single(f) => FieldScope(f, st)
    case RowOf(fs) => RowScope(fs, st)
  }

  function OperandScopes(os: seq<Operand>, st: Settings): seq<Scope>
    decreases os
  {
    if os == [] then [] else [OperandScope(os[0], st)] + OperandScopes(os[1..], st)
  }

  /** The tag a condition opens inside its CONDITION region. */
  function ConditionTag(c: ConditionExpr): Clause
  {
    match c
    case Compare(_, _, _) => ConditionComparison
    case IsNull(_) => ConditionIsNull
    case IsNotNull(_) => ConditionIsNotNull
    case InList(_, _, negated) => if negated then ConditionNotIn else ConditionIn
    case Between(_, _, _, negated, symmetric) =>
      if negated then (if symmetric then ConditionNotBetweenSymmetric else ConditionNotBetween)
      else (if symmetric then ConditionBetweenSymmetric else ConditionBetween)
    case Exists(_, negated) => if negated then ConditionNotExists else ConditionExists
    case Not(_) => ConditionNot
    case And(_, _) => ConditionAnd
    case Or(_, _) => ConditionOr
  }

  /** Every condition is a CONDITION region holding the region of its own kind. */
  function ConditionScope(c: ConditionExpr, st: Settings): Scope
    decreases c, 1
  {
    Scope(Condition, [Scope(ConditionTag(c), ConditionOperands(c, st))])
  }

  /** What a condition renders inside the region of its kind, left to right. */
  function ConditionOperands(c: ConditionExpr, st: Settings): seq<Scope>
    decreases c, 0
  {
    match c
    case Compare(_, l, r) => [OperandScope(l, st), OperandScope(r, st)]
    case IsNull(a) => [OperandScope(a, st)]
    case IsNotNull(a) => [OperandScope(a, st)]
    case InList(a, candidates, _) => [OperandScope(a, st)] + OperandScopes(candidates, st)
    case Between(a, low, high, _, _) => [OperandScope(a, st), OperandScope(low, st), OperandScope(high, st)]
    case Exists(q, _) => [SelectScope(q, st)]
    case Not(operand) => [ConditionScope(operand, st)]
    case And(l, r) => [ConditionScope(l, st), ConditionScope(r, st)]
    case Or(l, r) => [ConditionScope(l, st), ConditionScope(r, st)]
  }

  /** The regions of an optional WHERE condition. */
  function WhereScopes(w: Option<ConditionExpr>, st: Settings): seq<Scope>
    decreases w
  {
    match w
    case None => []
    case Some(c) => [ConditionScope(c, st)]
  }

  /** What FROM holds: the tables, or the bare `dual` table where the dialect needs one. */
  function FromScopes(ts: seq<TableExpr>, st: Settings): seq<Scope>
  {
    if ts != [] then TableScopes(ts, st)
    else if NeedsDual(st.dialect) then [Scope(Table, [])]
    else []
  }

  /** The clause slots every SELECT opens, in render order. */
  const SelectSlots := [SelectSelect, SelectFrom, SelectWhere, SelectStartWith, SelectConnectBy, SelectGroupBy, SelectHaving, SelectOrderBy]

  function SelectScope(q: SelectQuery, st: Settings): Scope
    decreases q, 2
  {
    Scope(Select, [
      Scope(SelectSelect, FieldScopes(q.fields, st)),
      Scope(SelectFrom, FromScopes(q.tables, st)),
      Scope(SelectWhere, WhereScopes(q.where, st)),
      Scope(SelectStartWith, []),
      Scope(SelectConnectBy, []),
      Scope(SelectGroupBy, []),
      Scope(SelectHaving, []),
      Scope(SelectOrderBy, [])])
  }

  /** One `tag` region per assignment, holding the target then the value. */
  function AssignmentScopes(tag: Clause, assignments: seq<Assignment>, st: Settings): seq<Scope>
    decreases assignments
  {
    if assignments == [] then []
    else
      [Scope(tag, [OperandScope(assignments[0].target, st), OperandScope(assignments[0].value, st)])]
      + AssignmentScopes(tag, assignments[1..], st)
  }

  /** The SELECT that stands for one row of an emulated multi-row INSERT. */
  function RowSelect(row: seq<FieldExpr>): SelectQuery
  {
    SelectQuery(row, [], None)
  }

  function RowSelectScopes(rows: seq<seq<FieldExpr>>, st: Settings): seq<Scope>
    decreases rows
  {
    if rows == [] then [] else [SelectScope(RowSelect(rows[0]), st)] + RowSelectScopes(rows[1..], st)
  }

  /** True when the rows of an INSERT are rewritten to INSERT .. SELECT .. UNION ALL SELECT .. */
  predicate EmulatesMultiRow(rows: seq<seq<FieldExpr>>, d: Dialect)
  {
    |rows| >= 2 && !NativeMultiRowValues(d)
  }

  /** Where an INSERT takes its rows from. */
  function InsertSourceScope(source: InsertSource, st: Settings): Scope
  {
    match source
    case Rows(rows) =>
      if EmulatesMultiRow(rows, st.dialect) then
        Scope(InsertSelect, [Scope(SelectUnionAll, RowSelectScopes(rows, st))])
      else
        Scope(InsertValues, RowScopes(rows, st))
    case FromSelect(q) => Scope(InsertSelect, [SelectScope(q, st)])
  }

  function InsertScope(i: InsertQuery, st: Settings): Scope
  {
    Scope(Insert, [
      Scope(InsertInsertInto, [TableScope(i.into, st)] + FieldScopes(i.columns, st)),
      InsertSourceScope(i.source, st),
      Scope(InsertOnDuplicateKeyUpdate,
        if NativeOnDuplicateKeyUpdate(st.dialect)
        then AssignmentScopes(InsertOnDuplicateKeyUpdateAssignment, i.onDuplicateKeyUpdate, st)
        else []),
      Scope(InsertReturning, if NativeReturning(st.dialect) then FieldScopes(i.returning, st) else [])])
  }

  function UpdateScope(u: UpdateQuery, st: Settings): Scope
  {
    Scope(Update, [
      Scope(UpdateUpdate, [TableScope(u.table, st)]),
      Scope(UpdateSet, AssignmentScopes(UpdateSetAssignment, u.assignments, st)),
      Scope(UpdateWhere, WhereScopes(u.where, st)),
      Scope(UpdateReturning, if NativeReturning(st.dialect) then FieldScopes(u.returning, st) else [])])
  }

  function PartScope(part: QueryPart, st: Settings): Scope
  {
    match part
    case TablePart(t) => TableScope(t, st)
    case FieldPart(f) => FieldScope(f, st)
    case ConditionPart(c) => ConditionScope(c, st)
    case SelectPart(q) => SelectScope(q, st)
    case InsertPart(i) => InsertScope(i, st)
    case UpdatePart(u) => UpdateScope(u, st)
  }

  /**
   * What a recording listener holds after a fresh context has rendered
   * `part`: the open tags, outermost first, at each of its clauseStart events.
   */
  function Recorded(part: QueryPart, st: Settings): seq<seq<Clause>>
  {
    Lists(ScopeSnapshots(Root, PartScope(part, st)))
  }

  /** The first tag of `tags` the dialect cannot render, if any. */
  function FirstUnsupported(tags: seq<Clause>, d: Dialect): (r: Option<Clause>)
    ensures r.None? ==> forall k :: 0 <= k < |tags| ==> Supported(d, tags[k])
    ensures (forall k :: 0 <= k < |tags| ==> Supported(d, tags[k])) ==> r.None?
    ensures r.Some? ==> exists k :: 0 <= k < |tags| && FirstUnsupportedAt(tags, d, k) && tags[k] == r.value
  {
    if tags == [] then None
    else if !Supported(d, tags[0]) then
      assert FirstUnsupportedAt(tags, d, 0);
      Some(tags[0])
    else
      var r := FirstUnsupported(tags[1..], d);
      if r.Some? then
        var k :| 0 <= k < |tags[1..]| && FirstUnsupportedAt(tags[1..], d, k) && tags[1..][k] == r.value;
        assert FirstUnsupportedAt(tags, d, k + 1) by {
          forall j | 0 < j <= k ensures Supported(d, tags[j]) {
            assert tags[j] == tags[1..][j - 1];
          }
        }
        r
      else r
  }

  /** `tags[k]` cannot be rendered in `d` and every tag before it can. */
  predicate FirstUnsupportedAt(tags: seq<Clause>, d: Dialect, k: int)
    requires 0 <= k < |tags|
  {
    !Supported(d, tags[k]) && forall j :: 0 <= j < k ==> Supported(d, tags[j])
  }
}
