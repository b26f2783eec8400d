/**
 * The query parts the visit-context tests render, as immutable values: the
 * resulting trees of the fluent builder calls, not the builder itself.
 */
module Ast {
  import opened Wrappers

  /** A bind value: `val(1)`, `val("value")`, `val(null)`. */
  datatype Value = IntValue(i: int) | StringValue(s: string) | NullValue

  /** A field: a column such as FIELD_ID1, a bind value, or `field.as(alias)`. */
  datatype FieldExpr =
    | NamedField(name: string)
    | Val(value: Value)
    | FieldAs(field: FieldExpr, alias: string)

  /** A table: a schema table such as TABLE1, `table.as(alias)`, or `values(row(..), ..)`. */
  datatype TableExpr =
    | NamedTable(name: string)
    | TableAs(table: TableExpr, alias: string)
    | ValuesTable(rows: seq<seq<FieldExpr>>)

  /** One side of a condition or assignment: a field or a row value expression `row(..)`. */
  datatype Operand = Single(field: FieldExpr) | RowOf(fields: seq<FieldExpr>)

  datatype Comparator = Eq | Ne | Lt | Le | Gt | Ge

  datatype ConditionExpr =
    | Compare(op: Comparator, lhs: Operand, rhs: Operand)
    | IsNull(arg: Operand)
    | IsNotNull(arg: Operand)
    | InList(arg: Operand, candidates: seq<Operand>, negated: bool)
    | Between(arg: Operand, low: Operand, high: Operand, negated: bool, symmetric: bool)
    | Exists(query: SelectQuery, negated: bool)
    | Not(operand: ConditionExpr)
    | And(left: ConditionExpr, right: ConditionExpr)
    | Or(left: ConditionExpr, right: ConditionExpr)

  /** SELECT fields FROM tables WHERE .. ; the remaining clauses are always empty here. */
  datatype SelectQuery = SelectQuery(fields: seq<FieldExpr>, tables: seq<TableExpr>, where: Option<ConditionExpr>)

  /** `target = value` in UPDATE .. SET or ON DUPLICATE KEY UPDATE. */
  datatype Assignment = Assignment(target: Operand, value: Operand)

  datatype InsertSource = Rows(rows: seq<seq<FieldExpr>>) | FromSelect(query: SelectQuery)

  datatype InsertQuery = InsertQuery(
    into: TableExpr,
    columns: seq<FieldExpr>,
    source: InsertSource,
    onDuplicateKeyUpdate: seq<Assignment>,
    returning: seq<FieldExpr>)

  datatype UpdateQuery = UpdateQuery(
    table: TableExpr,
    assignments: seq<Assignment>,
    where: Option<ConditionExpr>,
    returning: seq<FieldExpr>)

  /** Anything a render context can be asked to render. */
  datatype QueryPart =
    | TablePart(table: TableExpr)
    | FieldPart(field: FieldExpr)
    | ConditionPart(condition: ConditionExpr)
    | SelectPart(select: SelectQuery)
    | InsertPart(insert: InsertQuery)
    | UpdatePart(update: UpdateQuery)
}
