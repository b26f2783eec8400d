/**
 * What a visit listener is shown, and the recording listener of the
 * visit-context tests.
 */
module Listeners {
  import opened Clauses
  import opened Dialects

  /**
   * The view a listener gets of the render in progress. jOOQ's context also
   * exposes the declaration flags; the recording listener never reads them,
   * so this view leaves them out.
   */
  datatype VisitContext = VisitContext(
    /** The open clause tags, outermost first. */
    clauses: seq<Clause>,
    dialect: Dialect)

  /**
   * Records a copy of the open clause tags on every clauseStart and ignores
   * the other three callbacks.
   */
  class SimpleListener {
    var clauses: seq<seq<Clause>>

    constructor()
      ensures clauses == []
    {
      clauses := [];
    }

    method ClauseStart(context: VisitContext)
      modifies this
      ensures clauses == old(clauses) + [context.clauses]
    {
      clauses := clauses + [context.clauses];
    }

    method ClauseEnd(context: VisitContext)
      ensures clauses == old(clauses)
    {
    }

    method VisitStart(context: VisitContext)
      ensures clauses == old(clauses)
    {
    }

    method VisitEnd(context: VisitContext)
      ensures clauses == old(clauses)
    {
    }
  }
}
