/**
 * The clause-start events of each kind of query part, stated directly on the
 * query part. `XLog(acc, p, x, st)` is the log `acc` followed by the paths a
 * listener sees on clauseStart while `x` is rendered with the path `p` open.
 * These functions follow the query part, not the render plan; Equivalence
 * proves that they record exactly what the dispatcher records when it walks
 * the plan.
 */
module Events {
  import opened Wrappers
  import opened Clauses
  import opened Paths
  import opened Dialects
  import opened Ast
  import opened Logs
  import opened Plan

  function FieldLog(acc: Log, p: Path, f: FieldExpr, st: Settings): Log
    decreases f
  {
    var q := Push(p, Field);
    match f
    case NamedField(_) => Snoc(Snoc(acc, q), Push(q, FieldReference))
    case Val(_) => Snoc(Snoc(acc, q), Push(q, FieldValue))
    case FieldAs(inner, _) =>
      if st.declareFields then FieldLog(Snoc(Snoc(acc, q), Push(q, FieldAlias)), Push(q, FieldAlias), inner, st)
      else Snoc(Snoc(acc, q), Push(q, FieldReference))
  }

  function FieldsLog(acc: Log, p: Path, fs: seq<FieldExpr>, st: Settings): Log
    decreases fs
  {
    if fs == [] then acc else FieldsLog(FieldLog(acc, p, fs[0], st), p, fs[1..], st)
  }

  function RowLog(acc: Log, p: Path, fs: seq<FieldExpr>, st: Settings): Log
  {
    FieldsLog(Snoc(acc, Push(p, FieldRow)), Push(p, FieldRow), fs, st)
  }

  function RowsLog(acc: Log, p: Path, rows: seq<seq<FieldExpr>>, st: Settings): Log
    decreases rows
  {
    if rows == [] then acc else RowsLog(RowLog(acc, p, rows[0], st), p, rows[1..], st)
  }

  function TableLog(acc: Log, p: Path, t: TableExpr, st: Settings): Log
    decreases t
  {
    var q := Push(p, Table);
    match t
    case NamedTable(_) => Snoc(Snoc(acc, q), Push(q, TableReference))
    case TableAs(inner, _) =>
      if st.declareTables then TableLog(Snoc(Snoc(acc, q), Push(q, TableAlias)), Push(q, TableAlias), inner, st)
      else Snoc(Snoc(acc, q), Push(q, TableReference))
    case ValuesTable(rows) => RowsLog(Snoc(Snoc(acc, q), Push(q, TableValues)), Push(q, TableValues), rows, st)
  }

  function TablesLog(acc: Log, p: Path, ts: seq<TableExpr>, st: Settings): Log
    decreases ts
  {
    if ts == [] then acc else TablesLog(TableLog(acc, p, ts[0], st), p, ts[1..], st)
  }

  function OperandLog(acc: Log, p: Path, o: Operand, st: Settings): Log
  {
    match o
    case Single(f) => FieldLog(acc, p, f, st)
    case RowOf(fs) => RowLog(acc, p, fs, st)
  }

  function OperandsLog(acc: Log, p: Path, os: seq<Operand>, st: Settings): Log
    decreases os
  {
    if os == [] then acc else OperandsLog(OperandLog(acc, p, os[0], st), p, os[1..], st)
  }

  /** A condition: CONDITION, then the region of its kind, then what that region holds. */
  function ConditionLog(acc: Log, p: Path, c: ConditionExpr, st: Settings): Log
    decreases c, 1
  {
    var q := Push(Push(p, Condition), ConditionTag(c));
    ConditionBodyLog(Snoc(Snoc(acc, Push(p, Condition)), q), q, c, st)
  }

  function ConditionBodyLog(acc: Log, q: Path, c: ConditionExpr, st: Settings): Log
    decreases c, 0
  {
    match c
    case Compare(_, l, r) => OperandLog(OperandLog(acc, q, l, st), q, r, st)
    case IsNull(a) => OperandLog(acc, q, a, st)
    case IsNotNull(a) => OperandLog(acc, q, a, st)
    case InList(a, candidates, _) => OperandsLog(OperandLog(acc, q, a, st), q, candidates, st)
    case Between(a, low, high, _, _) =>
      OperandLog(OperandLog(OperandLog(acc, q, a, st), q, low, st), q, high, st)
    case Exists(query, _) => SelectLog(acc, q, query, st)
    case Not(operand) => ConditionLog(acc, q, operand, st)
    case And(l, r) => ConditionLog(ConditionLog(acc, q, l, st), q, r, st)
    case Or(l, r) => ConditionLog(ConditionLog(acc, q, l, st), q, r, st)
  }

  function WhereLog(acc: Log, p: Path, w: Option<ConditionExpr>, st: Settings): Log
    decreases w
  {
    match w
    case None => acc
    case Some(c) => ConditionLog(acc, p, c, st)
  }

  function FromLog(acc: Log, p: Path, ts: seq<TableExpr>, st: Settings): Log
  {
    if ts != [] then TablesLog(acc, p, ts, st)
    else if NeedsDual(st.dialect) then Snoc(acc, Push(p, Table))
    else acc
  }

  /** A SELECT opens all eight of its slots, filled or not. */
  function SelectLog(acc: Log, p: Path, query: SelectQuery, st: Settings): Log
    decreases query
  {
    var q := Push(p, Select);
    var a1 := FieldsLog(Snoc(Snoc(acc, q), Push(q, SelectSelect)), Push(q, SelectSelect), query.fields, st);
    var a2 := FromLog(Snoc(a1, Push(q, SelectFrom)), Push(q, SelectFrom), query.tables, st);
    var a3 := WhereLog(Snoc(a2, Push(q, SelectWhere)), Push(q, SelectWhere), query.where, st);
    Snoc(Snoc(Snoc(Snoc(Snoc(a3,
      Push(q, SelectStartWith)), Push(q, SelectConnectBy)), Push(q, SelectGroupBy)),
      Push(q, SelectHaving)), Push(q, SelectOrderBy))
  }

  function AssignmentsLog(acc: Log, p: Path, tag: Clause, assignments: seq<Assignment>, st: Settings): Log
    decreases assignments
  {
    if assignments == [] then acc
    else
      var q := Push(p, tag);
      var a := OperandLog(OperandLog(Snoc(acc, q), q, assignments[0].target, st), q, assignments[0].value, st);
      AssignmentsLog(a, p, tag, assignments[1..], st)
  }

  function RowSelectsLog(acc: Log, p: Path, rows: seq<seq<FieldExpr>>, st: Settings): Log
    decreases rows
  {
    if rows == [] then acc else RowSelectsLog(SelectLog(acc, p, RowSelect(rows[0]), st), p, rows[1..], st)
  }

  function InsertSourceLog(acc: Log, p: Path, source: InsertSource, st: Settings): Log
  {
    match source
    case Rows(rows) =>
      if EmulatesMultiRow(rows, st.dialect) then
        var q := Push(Push(p, InsertSelect), SelectUnionAll);
        RowSelectsLog(Snoc(Snoc(acc, Push(p, InsertSelect)), q), q, rows, st)
      else
        RowsLog(Snoc(acc, Push(p, InsertValues)), Push(p, InsertValues), rows, st)
    case FromSelect(query) => SelectLog(Snoc(acc, Push(p, InsertSelect)), Push(p, InsertSelect), query, st)
  }

  function InsertLog(acc: Log, p: Path, i: InsertQuery, st: Settings): Log
  {
    var q := Push(p, Insert);
    var into := Push(q, InsertInsertInto);
    var a1 := FieldsLog(TableLog(Snoc(Snoc(acc, q), into), into, i.into, st), into, i.columns, st);
    var a2 := InsertSourceLog(a1, q, i.source, st);
    var dup := Push(q, InsertOnDuplicateKeyUpdate);
    var a3 :=
      if NativeOnDuplicateKeyUpdate(st.dialect)
      then AssignmentsLog(Snoc(a2, dup), dup, InsertOnDuplicateKeyUpdateAssignment, i.onDuplicateKeyUpdate, st)
      else Snoc(a2, dup);
    var ret := Push(q, InsertReturning);
    if NativeReturning(st.dialect) then FieldsLog(Snoc(a3, ret), ret, i.returning, st) else Snoc(a3, ret)
  }

  function UpdateLog(acc: Log, p: Path, u: UpdateQuery, st: Settings): Log
  {
    var q := Push(p, Update);
    var a1 := TableLog(Snoc(Snoc(acc, q), Push(q, UpdateUpdate)), Push(q, UpdateUpdate), u.table, st);
    var a2 := AssignmentsLog(Snoc(a1, Push(q, UpdateSet)), Push(q, UpdateSet), UpdateSetAssignment, u.assignments, st);
    var a3 := WhereLog(Snoc(a2, Push(q, UpdateWhere)), Push(q, UpdateWhere), u.where, st);
    var ret := Push(q, UpdateReturning);
    if NativeReturning(st.dialect) then FieldsLog(Snoc(a3, ret), ret, u.returning, st) else Snoc(a3, ret)
  }

  function PartLog(acc: Log, p: Path, part: QueryPart, st: Settings): Log
  {
    match part
    case TablePart(t) => TableLog(acc, p, t, st)
    case FieldPart(f) => FieldLog(acc, p, f, st)
    case ConditionPart(c) => ConditionLog(acc, p, c, st)
    case SelectPart(q) => SelectLog(acc, p, q, st)
    case InsertPart(i) => InsertLog(acc, p, i, st)
    case UpdatePart(u) => UpdateLog(acc, p, u, st)
  }
}
