/**
 * SQL dialects and the dialect rule table: which syntactic features a
 * dialect renders natively. `Default` is the dialect a context has when
 * none is set; like Oracle it has no multi-row VALUES list, no RETURNING,
 * no ON DUPLICATE KEY UPDATE and needs a `dual` table in FROM.
 */
module Dialects {
  import opened Clauses

  datatype Dialect = Default | MySql | Postgres

  /** INSERT .. VALUES (..), (..) with several rows. */
  predicate NativeMultiRowValues(d: Dialect)
  {
    d == MySql || d == Postgres
  }

  /** INSERT .. ON DUPLICATE KEY UPDATE. */
  predicate NativeOnDuplicateKeyUpdate(d: Dialect)
  {
    d == MySql
  }

  /** INSERT / UPDATE .. RETURNING. */
  predicate NativeReturning(d: Dialect)
  {
    d == Postgres
  }

  /** VALUES (..), (..) used as a derived table. */
  predicate NativeValuesTable(d: Dialect)
  {
    d == Postgres
  }

  /** BETWEEN SYMMETRIC and NOT BETWEEN SYMMETRIC. */
  predicate NativeBetweenSymmetric(d: Dialect)
  {
    d == Postgres
  }

  /** A SELECT without tables still selects FROM a one-row `dual` table. */
  predicate NeedsDual(d: Dialect)
  {
    d != Postgres
  }

  /** Whether a clause region may be rendered at all in `d`: features without emulation. */
  predicate Supported(d: Dialect, c: Clause)
  {
    (c == TableValues ==> NativeValuesTable(d)) &&
    (c == ConditionBetweenSymmetric || c == ConditionNotBetweenSymmetric ==> NativeBetweenSymmetric(d))
  }

  /** What a render context is configured with before a render starts. */
  datatype Settings = Settings(dialect: Dialect, declareTables: bool, declareFields: bool)
}
