/**
 * The clause tags a listener observes while a query part is rendered.
 * One constructor per tag of jOOQ's Clause enumeration that the visit-context
 * tests use, grouped as in jOOQ: conditions, fields, INSERT, SELECT, tables
 * and UPDATE.
 */
module Clauses {

  datatype Clause =
    // conditions
    | Condition
    | ConditionAnd
    | ConditionBetween
    | ConditionBetweenSymmetric
    | ConditionComparison
    | ConditionExists
    | ConditionIn
    | ConditionIsNotNull
    | ConditionIsNull
    | ConditionNot
    | ConditionNotBetween
    | ConditionNotBetweenSymmetric
    | ConditionNotExists
    | ConditionNotIn
    | ConditionOr
    // fields
    | Field
    | FieldAlias
    | FieldReference
    | FieldRow
    | FieldValue
    // INSERT statements
    | Insert
    | InsertInsertInto
    | InsertOnDuplicateKeyUpdate
    | InsertOnDuplicateKeyUpdateAssignment
    | InsertReturning
    | InsertSelect
    | InsertValues
    // SELECT statements
    | Select
    | SelectConnectBy
    | SelectFrom
    | SelectGroupBy
    | SelectHaving
    | SelectOrderBy
    | SelectSelect
    | SelectStartWith
    | SelectUnionAll
    | SelectWhere
    // tables
    | Table
    | TableAlias
    | TableReference
    | TableValues
    // UPDATE statements
    | Update
    | UpdateReturning
    | UpdateSet
    | UpdateSetAssignment
    | UpdateUpdate
    | UpdateWhere
}
