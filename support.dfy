/**
 * Which query parts a dialect can render. Two features have no emulation:
 * a VALUES table constructor, and BETWEEN SYMMETRIC (negated or not). A
 * render that would open one of their regions in a dialect without native
 * support fails. The predicates here state that on the query part; the
 * lemmas prove they agree with the tags of the render plan, going through
 * the event log of each kind of query part.
 */
module Support {
  import opened Wrappers
  import opened Clauses
  import opened Paths
  import opened Scopes
  import opened Dialects
  import opened Ast
  import opened Logs
  import opened Plan
  import opened Events
  import opened Equivalence

  /** A query part the dialect can render, as a property of the part itself. */
  predicate TableRenderable(t: TableExpr, st: Settings)
    decreases t
  {
    match t
    case NamedTable(_) => true
    case TableAs(inner, _) => !st.declareTables || TableRenderable(inner, st)
    case ValuesTable(_) => NativeValuesTable(st.dialect)
  }

  predicate TablesRenderable(ts: seq<TableExpr>, st: Settings)
    decreases ts
  {
    ts == [] || (TableRenderable(ts[0], st) && TablesRenderable(ts[1..], st))
  }

  predicate ConditionRenderable(c: ConditionExpr, st: Settings)
    decreases c
  {
    match c
    case Between(_, _, _, _, symmetric) => !symmetric || NativeBetweenSymmetric(st.dialect)
    case Exists(q, _) => SelectRenderable(q, st)
    case Not(operand) => ConditionRenderable(operand, st)
    case And(l, r) => ConditionRenderable(l, st) && ConditionRenderable(r, st)
    case Or(l, r) => ConditionRenderable(l, st) && ConditionRenderable(r, st)
    case _ => true
  }

  predicate WhereRenderable(w: Option<ConditionExpr>, st: Settings)
    decreases w
  {
    match w
    case None => true
    case Some(c) => ConditionRenderable(c, st)
  }

  predicate SelectRenderable(q: SelectQuery, st: Settings)
    decreases q
  {
    TablesRenderable(q.tables, st) && WhereRenderable(q.where, st)
  }

  predicate PartRenderable(part: QueryPart, st: Settings)
  {
    match part
    case TablePart(t) => TableRenderable(t, st)
    case FieldPart(_) => true
    case ConditionPart(c) => ConditionRenderable(c, st)
    case SelectPart(q) => SelectRenderable(q, st)
    case InsertPart(i) =>
      TableRenderable(i.into, st) && (i.source.FromSelect? ==> SelectRenderable(i.source.query, st))
    case UpdatePart(u) => TableRenderable(u.table, st) && WhereRenderable(u.where, st)
  }

  lemma {:induction false} FieldSupported(acc: Log, p: Path, f: FieldExpr, st: Settings)
    ensures AllSupported(FieldLog(acc, p, f, st), st.dialect) == AllSupported(acc, st.dialect)
    decreases f
  {
    match f
    case NamedField(_) =>
    case Val(_) =>
    case FieldAs(inner, _) =>
      var q := Push(p, Field);
      if st.declareFields {
        FieldSupported(Snoc(Snoc(acc, q), Push(q, FieldAlias)), Push(q, FieldAlias), inner, st);
      }
  }

  lemma {:induction false} FieldsSupported(acc: Log, p: Path, fs: seq<FieldExpr>, st: Settings)
    ensures AllSupported(FieldsLog(acc, p, fs, st), st.dialect) == AllSupported(acc, st.dialect)
    decreases fs
  {
    if fs != [] {
      FieldSupported(acc, p, fs[0], st);
      FieldsSupported(FieldLog(acc, p, fs[0], st), p, fs[1..], st);
    }
  }

  lemma RowSupported(acc: Log, p: Path, fs: seq<FieldExpr>, st: Settings)
    ensures AllSupported(RowLog(acc, p, fs, st), st.dialect) == AllSupported(acc, st.dialect)
  {
    FieldsSupported(Snoc(acc, Push(p, FieldRow)), Push(p, FieldRow), fs, st);
  }

  lemma {:induction false} RowsSupported(acc: Log, p: Path, rows: seq<seq<FieldExpr>>, st: Settings)
    ensures AllSupported(RowsLog(acc, p, rows, st), st.dialect) == AllSupported(acc, st.dialect)
    decreases rows
  {
    if rows != [] {
      RowSupported(acc, p, rows[0], st);
      RowsSupported(RowLog(acc, p, rows[0], st), p, rows[1..], st);
    }
  }

  lemma {:induction false} TableSupported(acc: Log, p: Path, t: TableExpr, st: Settings)
    ensures AllSupported(TableLog(acc, p, t, st), st.dialect) ==
      (AllSupported(acc, st.dialect) && TableRenderable(t, st))
    decreases t
  {
    var q := Push(p, Table);
    match t
    case NamedTable(_) =>
    case TableAs(inner, _) =>
      if st.declareTables {
        TableSupported(Snoc(Snoc(acc, q), Push(q, TableAlias)), Push(q, TableAlias), inner, st);
      }
    case ValuesTable(rows) =>
      RowsSupported(Snoc(Snoc(acc, q), Push(q, TableValues)), Push(q, TableValues), rows, st);
  }

  lemma {:induction false} TablesSupported(acc: Log, p: Path, ts: seq<TableExpr>, st: Settings)
    ensures AllSupported(TablesLog(acc, p, ts, st), st.dialect) ==
      (AllSupported(acc, st.dialect) && TablesRenderable(ts, st))
    decreases ts
  {
    if ts != [] {
      TableSupported(acc, p, ts[0], st);
      TablesSupported(TableLog(acc, p, ts[0], st), p, ts[1..], st);
    }
  }

  lemma OperandSupported(acc: Log, p: Path, o: Operand, st: Settings)
    ensures AllSupported(OperandLog(acc, p, o, st), st.dialect) == AllSupported(acc, st.dialect)
  {
    match o
    case Single(f) => FieldSupported(acc, p, f, st);
    case RowOf(fs) => RowSupported(acc, p, fs, st);
  }

  lemma {:induction false} OperandsSupported(acc: Log, p: Path, os: seq<Operand>, st: Settings)
    ensures AllSupported(OperandsLog(acc, p, os, st), st.dialect) == AllSupported(acc, st.dialect)
    decreases os
  {
    if os != [] {
      OperandSupported(acc, p, os[0], st);
      OperandsSupported(OperandLog(acc, p, os[0], st), p, os[1..], st);
    }
  }

  lemma {:induction false} ConditionSupported(acc: Log, p: Path, c: ConditionExpr, st: Settings)
    ensures AllSupported(ConditionLog(acc, p, c, st), st.dialect) ==
      (AllSupported(acc, st.dialect) && ConditionRenderable(c, st))
    decreases c, 1
  {
    var q := Push(Push(p, Condition), ConditionTag(c));
    ConditionBodySupported(Snoc(Snoc(acc, Push(p, Condition)), q), q, c, st);
  }

  /** What a condition holds; its own tag, checked by the caller, is the BETWEEN SYMMETRIC case. */
  lemma {:induction false} ConditionBodySupported(acc: Log, q: Path, c: ConditionExpr, st: Settings)
    ensures AllSupported(ConditionBodyLog(acc, q, c, st), st.dialect) ==
      (AllSupported(acc, st.dialect) && (Supported(st.dialect, ConditionTag(c)) ==> ConditionRenderable(c, st)))
    decreases c, 0
  {
    match c
    case Compare(_, l, r) =>
      OperandSupported(acc, q, l, st);
      OperandSupported(OperandLog(acc, q, l, st), q, r, st);
    case IsNull(a) => OperandSupported(acc, q, a, st);
    case IsNotNull(a) => OperandSupported(acc, q, a, st);
    case InList(a, candidates, _) =>
      OperandSupported(acc, q, a, st);
      OperandsSupported(OperandLog(acc, q, a, st), q, candidates, st);
    case Between(a, low, high, _, _) =>
      OperandSupported(acc, q, a, st);
      OperandSupported(OperandLog(acc, q, a, st), q, low, st);
      OperandSupported(OperandLog(OperandLog(acc, q, a, st), q, low, st), q, high, st);
    case Exists(query, _) => SelectSupported(acc, q, query, st);
    case Not(operand) => ConditionSupported(acc, q, operand, st);
    case And(l, r) =>
      ConditionSupported(acc, q, l, st);
      ConditionSupported(ConditionLog(acc, q, l, st), q, r, st);
    case Or(l, r) =>
      ConditionSupported(acc, q, l, st);
      ConditionSupported(ConditionLog(acc, q, l, st), q, r, st);
  }

  lemma WhereSupported(acc: Log, p: Path, w: Option<ConditionExpr>, st: Settings)
    ensures AllSupported(WhereLog(acc, p, w, st), st.dialect) ==
      (AllSupported(acc, st.dialect) && WhereRenderable(w, st))
    decreases w
  {
    match w
    case None =>
    case Some(c) => ConditionSupported(acc, p, c, st);
  }

  lemma FromSupported(acc: Log, p: Path, ts: seq<TableExpr>, st: Settings)
    ensures AllSupported(FromLog(acc, p, ts, st), st.dialect) ==
      (AllSupported(acc, st.dialect) && TablesRenderable(ts, st))
  {
    if ts != [] {
      TablesSupported(acc, p, ts, st);
    }
  }

  lemma {:induction false} SelectSupported(acc: Log, p: Path, query: SelectQuery, st: Settings)
    ensures AllSupported(SelectLog(acc, p, query, st), st.dialect) ==
      (AllSupported(acc, st.dialect) && SelectRenderable(query, st))
    decreases query
  {
    var d := st.dialect;
    var q := Push(p, Select);
    var a1 := FieldsLog(Snoc(Snoc(acc, q), Push(q, SelectSelect)), Push(q, SelectSelect), query.fields, st);
    var a2 := FromLog(Snoc(a1, Push(q, SelectFrom)), Push(q, SelectFrom), query.tables, st);
    var a3 := WhereLog(Snoc(a2, Push(q, SelectWhere)), Push(q, SelectWhere), query.where, st);
    FieldsSupported(Snoc(Snoc(acc, q), Push(q, SelectSelect)), Push(q, SelectSelect), query.fields, st);
    FromSupported(Snoc(a1, Push(q, SelectFrom)), Push(q, SelectFrom), query.tables, st);
    WhereSupported(Snoc(a2, Push(q, SelectWhere)), Push(q, SelectWhere), query.where, st);
    SlotsSupported(a3, q, SelectStartWith, SelectConnectBy, SelectGroupBy, SelectHaving, SelectOrderBy, d);
  }

  /** Two regions with tags the dialect renders, opened one after the other. */
  lemma TwoSupported(acc: Log, q: Path, c1: Clause, c2: Clause, d: Dialect)
    requires Supported(d, c1) && Supported(d, c2)
    ensures AllSupported(Snoc(Snoc(acc, Push(q, c1)), Push(q, c2)), d) == AllSupported(acc, d)
  {
  }

  /** The five slots a SELECT always leaves empty here; none is BETWEEN SYMMETRIC or VALUES. */
  lemma SlotsSupported(acc: Log, q: Path, c1: Clause, c2: Clause, c3: Clause, c4: Clause, c5: Clause, d: Dialect)
    requires Supported(d, c1) && Supported(d, c2) && Supported(d, c3) && Supported(d, c4) && Supported(d, c5)
    ensures AllSupported(Snoc(Snoc(Snoc(Snoc(Snoc(acc, Push(q, c1)), Push(q, c2)), Push(q, c3)), Push(q, c4)), Push(q, c5)), d)
      == AllSupported(acc, d)
  {
    TwoSupported(acc, q, c1, c2, d);
    TwoSupported(Snoc(Snoc(acc, Push(q, c1)), Push(q, c2)), q, c3, c4, d);
  }

  lemma {:induction false} AssignmentsSupported(acc: Log, p: Path, tag: Clause, assignments: seq<Assignment>, st: Settings)
    requires Supported(st.dialect, tag)
    ensures AllSupported(AssignmentsLog(acc, p, tag, assignments, st), st.dialect) == AllSupported(acc, st.dialect)
    decreases assignments
  {
    if assignments != [] {
      var q := Push(p, tag);
      OperandSupported(Snoc(acc, q), q, assignments[0].target, st);
      OperandSupported(OperandLog(Snoc(acc, q), q, assignments[0].target, st), q, assignments[0].value, st);
      var a := OperandLog(OperandLog(Snoc(acc, q), q, assignments[0].target, st), q, assignments[0].value, st);
      AssignmentsSupported(a, p, tag, assignments[1..], st);
    }
  }

  lemma {:induction false} RowSelectsSupported(acc: Log, p: Path, rows: seq<seq<FieldExpr>>, st: Settings)
    ensures AllSupported(RowSelectsLog(acc, p, rows, st), st.dialect) == AllSupported(acc, st.dialect)
    decreases rows
  {
    if rows != [] {
      SelectSupported(acc, p, RowSelect(rows[0]), st);
      RowSelectsSupported(SelectLog(acc, p, RowSelect(rows[0]), st), p, rows[1..], st);
    }
  }

  lemma InsertSourceSupported(acc: Log, p: Path, source: InsertSource, st: Settings)
    ensures AllSupported(InsertSourceLog(acc, p, source, st), st.dialect) ==
      (AllSupported(acc, st.dialect) && (source.FromSelect? ==> SelectRenderable(source.query, st)))
  {
    match source
    case Rows(rows) =>
      if EmulatesMultiRow(rows, st.dialect) {
        var q := Push(Push(p, InsertSelect), SelectUnionAll);
        RowSelectsSupported(Snoc(Snoc(acc, Push(p, InsertSelect)), q), q, rows, st);
      } else {
        RowsSupported(Snoc(acc, Push(p, InsertValues)), Push(p, InsertValues), rows, st);
      }
    case FromSelect(query) =>
      SelectSupported(Snoc(acc, Push(p, InsertSelect)), Push(p, InsertSelect), query, st);
  }

  /** The INSERT INTO slot: the table, then the columns. */
  lemma InsertIntoSupported(acc: Log, q: Path, i: InsertQuery, st: Settings)
    ensures AllSupported(
      FieldsLog(TableLog(Snoc(Snoc(acc, q), Push(q, InsertInsertInto)), Push(q, InsertInsertInto), i.into, st),
        Push(q, InsertInsertInto), i.columns, st), st.dialect) ==
      (AllSupported(acc, st.dialect) && Renderable(q, st.dialect) && TableRenderable(i.into, st))
  {
    var into := Push(q, InsertInsertInto);
    TableSupported(Snoc(Snoc(acc, q), into), into, i.into, st);
    FieldsSupported(TableLog(Snoc(Snoc(acc, q), into), into, i.into, st), into, i.columns, st);
  }

  /** The ON DUPLICATE KEY UPDATE and RETURNING slots, filled where the dialect renders them. */
  lemma InsertTailSupported(acc: Log, q: Path, i: InsertQuery, st: Settings)
    ensures AllSupported(
      var dup := Push(q, InsertOnDuplicateKeyUpdate);
      var a :=
        if NativeOnDuplicateKeyUpdate(st.dialect)
        then AssignmentsLog(Snoc(acc, dup), dup, InsertOnDuplicateKeyUpdateAssignment, i.onDuplicateKeyUpdate, st)
        else Snoc(acc, dup);
      if NativeReturning(st.dialect) then FieldsLog(Snoc(a, Push(q, InsertReturning)), Push(q, InsertReturning), i.returning, st)
      else Snoc(a, Push(q, InsertReturning)), st.dialect) == AllSupported(acc, st.dialect)
  {
    var dup := Push(q, InsertOnDuplicateKeyUpdate);
    AssignmentsSupported(Snoc(acc, dup), dup, InsertOnDuplicateKeyUpdateAssignment, i.onDuplicateKeyUpdate, st);
    var a :=
      if NativeOnDuplicateKeyUpdate(st.dialect)
      then AssignmentsLog(Snoc(acc, dup), dup, InsertOnDuplicateKeyUpdateAssignment, i.onDuplicateKeyUpdate, st)
      else Snoc(acc, dup);
    ReturningSupported(a, q, InsertReturning, i.returning, st);
  }

  lemma InsertSupported(acc: Log, p: Path, i: InsertQuery, st: Settings)
    ensures AllSupported(InsertLog(acc, p, i, st), st.dialect) ==
      (AllSupported(acc, st.dialect) && PartRenderable(InsertPart(i), st))
  {
    var q := Push(p, Insert);
    var into := Push(q, InsertInsertInto);
    InsertIntoSupported(acc, q, i, st);
    var a1 := FieldsLog(TableLog(Snoc(Snoc(acc, q), into), into, i.into, st), into, i.columns, st);
    InsertSourceSupported(a1, q, i.source, st);
    InsertTailSupported(InsertSourceLog(a1, q, i.source, st), q, i, st);
  }

  /** The UPDATE and SET slots of an UPDATE. */
  lemma UpdateSetSupported(acc: Log, q: Path, u: UpdateQuery, st: Settings)
    ensures AllSupported(
      AssignmentsLog(Snoc(TableLog(Snoc(Snoc(acc, q), Push(q, UpdateUpdate)), Push(q, UpdateUpdate), u.table, st),
        Push(q, UpdateSet)), Push(q, UpdateSet), UpdateSetAssignment, u.assignments, st), st.dialect) ==
      (AllSupported(acc, st.dialect) && Renderable(q, st.dialect) && TableRenderable(u.table, st))
  {
    var a0 := Snoc(Snoc(acc, q), Push(q, UpdateUpdate));
    TableSupported(a0, Push(q, UpdateUpdate), u.table, st);
    var a1 := TableLog(a0, Push(q, UpdateUpdate), u.table, st);
    AssignmentsSupported(Snoc(a1, Push(q, UpdateSet)), Push(q, UpdateSet), UpdateSetAssignment, u.assignments, st);
  }

  /** The WHERE and RETURNING slots of an UPDATE. */
  lemma UpdateWhereSupported(acc: Log, q: Path, u: UpdateQuery, st: Settings)
    ensures AllSupported(
      var a := WhereLog(Snoc(acc, Push(q, UpdateWhere)), Push(q, UpdateWhere), u.where, st);
      if NativeReturning(st.dialect) then FieldsLog(Snoc(a, Push(q, UpdateReturning)), Push(q, UpdateReturning), u.returning, st)
      else Snoc(a, Push(q, UpdateReturning)), st.dialect) ==
      (AllSupported(acc, st.dialect) && WhereRenderable(u.where, st))
  {
    WhereSupported(Snoc(acc, Push(q, UpdateWhere)), Push(q, UpdateWhere), u.where, st);
    var a := WhereLog(Snoc(acc, Push(q, UpdateWhere)), Push(q, UpdateWhere), u.where, st);
    ReturningSupported(a, q, UpdateReturning, u.returning, st);
  }

  lemma UpdateSupported(acc: Log, p: Path, u: UpdateQuery, st: Settings)
    ensures AllSupported(UpdateLog(acc, p, u, st), st.dialect) ==
      (AllSupported(acc, st.dialect) && PartRenderable(UpdatePart(u), st))
  {
    var q := Push(p, Update);
    var a1 := TableLog(Snoc(Snoc(acc, q), Push(q, UpdateUpdate)), Push(q, UpdateUpdate), u.table, st);
    UpdateSetSupported(acc, q, u, st);
    var a2 := AssignmentsLog(Snoc(a1, Push(q, UpdateSet)), Push(q, UpdateSet), UpdateSetAssignment, u.assignments, st);
    UpdateWhereSupported(a2, q, u, st);
  }

  /** A RETURNING slot, filled with its fields only where the dialect renders them. */
  lemma ReturningSupported(acc: Log, q: Path, tag: Clause, fields: seq<FieldExpr>, st: Settings)
    requires Supported(st.dialect, tag)
    ensures AllSupported(
      if NativeReturning(st.dialect) then FieldsLog(Snoc(acc, Push(q, tag)), Push(q, tag), fields, st)
      else Snoc(acc, Push(q, tag)), st.dialect) == AllSupported(acc, st.dialect)
  {
    FieldsSupported(Snoc(acc, Push(q, tag)), Push(q, tag), fields, st);
  }

  lemma PartLogSupported(part: QueryPart, st: Settings)
    ensures AllSupported(PartLog(Empty, Root, part, st), st.dialect) == PartRenderable(part, st)
  {
    match part
    case TablePart(t) => TableSupported(Empty, Root, t, st);
    case FieldPart(f) => FieldSupported(Empty, Root, f, st);
    case ConditionPart(c) => ConditionSupported(Empty, Root, c, st);
    case SelectPart(q) => SelectSupported(Empty, Root, q, st);
    case InsertPart(i) => InsertSupported(Empty, Root, i, st);
    case UpdatePart(u) => UpdateSupported(Empty, Root, u, st);
  }

  /**
   * A query part renders in a dialect exactly when it uses no VALUES table
   * constructor that is rendered and no BETWEEN SYMMETRIC, or the dialect
   * has them natively: every tag of its plan is supported iff PartRenderable.
   */
  lemma PartSupported(part: QueryPart, st: Settings)
    ensures PartRenderable(part, st) ==>
      forall k :: 0 <= k < |ScopePreorder(PartScope(part, st))| ==>
        Supported(st.dialect, ScopePreorder(PartScope(part, st))[k])
    ensures (forall k :: 0 <= k < |ScopePreorder(PartScope(part, st))| ==>
        Supported(st.dialect, ScopePreorder(PartScope(part, st))[k])) ==> PartRenderable(part, st)
  {
    var d := st.dialect;
    var s := PartScope(part, st);
    var l := PartLog(Empty, Root, part, st);
    PartLogSupported(part, st);
    PartEquivalence(Empty, Root, part, st);
    AllSupportedEntries(l, d);
    SnapshotsTops(Root, [s]);
    assert [s][1..] == [];
    assert Preorder([s]) == ScopePreorder(s);
    assert Snapshots(Root, [s]) == ScopeSnapshots(Root, s);
    assert Entries(l) == ScopeSnapshots(Root, s);
    if PartRenderable(part, st) {
      forall k | 0 <= k < |ScopePreorder(s)| ensures Supported(d, ScopePreorder(s)[k]) {
        assert Renderable(Entries(l)[k], d);
      }
    }
    if forall k :: 0 <= k < |ScopePreorder(s)| ==> Supported(d, ScopePreorder(s)[k]) {
      forall k | 0 <= k < |Entries(l)| ensures Renderable(Entries(l)[k], d) {
        assert Entries(l)[k].top == ScopePreorder(s)[k];
      }
    }
  }
}
