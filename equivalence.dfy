/**
 * The dispatcher's walk of a render plan, written as a log, and the proof
 * that for every kind of query part it records exactly the events that
 * Events states for that query part.
 */
module Equivalence {
  import opened Wrappers
  import opened Clauses
  import opened Paths
  import opened Scopes
  import opened Dialects
  import opened Ast
  import opened Logs
  import opened Plan
  import opened Events

  /** `acc` followed by what clauseStart sees while the scope `s` is walked with `p` open. */
  function ScopeLog(acc: Log, p: Path, s: Scope): Log
    decreases s
  {
    ForestLog(Snoc(acc, Push(p, s.clause)), Push(p, s.clause), s.body)
  }

  function ForestLog(acc: Log, p: Path, f: seq<Scope>): Log
    decreases f
  {
    if f == [] then acc else ForestLog(ScopeLog(acc, p, f[0]), p, f[1..])
  }

  /** Walking a forest adds its snapshots to the log, in order. */
  lemma {:induction false} ForestLogEntries(acc: Log, p: Path, f: seq<Scope>)
    ensures Entries(ForestLog(acc, p, f)) == Entries(acc) + Snapshots(p, f)
    decreases f
  {
    if f != [] {
      ScopeLogEntries(acc, p, f[0]);
      ForestLogEntries(ScopeLog(acc, p, f[0]), p, f[1..]);
    }
  }

  lemma {:induction false} ScopeLogEntries(acc: Log, p: Path, s: Scope)
    ensures Entries(ScopeLog(acc, p, s)) == Entries(acc) + ScopeSnapshots(p, s)
    decreases s
  {
    ForestLogEntries(Snoc(acc, Push(p, s.clause)), Push(p, s.clause), s.body);
  }

  lemma ForestLogCons(acc: Log, p: Path, s: Scope, f: seq<Scope>)
    ensures ForestLog(acc, p, [s] + f) == ForestLog(ScopeLog(acc, p, s), p, f)
  {
    assert ([s] + f)[0] == s;
    assert ([s] + f)[1..] == f;
  }

  lemma {:induction false} ForestLogAppend(acc: Log, p: Path, a: seq<Scope>, b: seq<Scope>)
    ensures ForestLog(acc, p, a + b) == ForestLog(ForestLog(acc, p, a), p, b)
    decreases a
  {
    if a == [] {
      assert a + b == b;
    } else {
      assert a + b == [a[0]] + (a[1..] + b);
      ForestLogCons(acc, p, a[0], a[1..] + b);
      ForestLogAppend(ScopeLog(acc, p, a[0]), p, a[1..], b);
    }
  }

  lemma ForestLogOne(acc: Log, p: Path, s: Scope)
    ensures ForestLog(acc, p, [s]) == ScopeLog(acc, p, s)
  {
    ForestLogCons(acc, p, s, []);
    assert [s] + [] == [s];
  }

  /** A region holding exactly one region `c` and nothing else. */
  lemma ScopeLogChain(acc: Log, p: Path, c: Clause, d: Clause)
    ensures ScopeLog(acc, p, Scope(c, [Scope(d, [])])) == Snoc(Snoc(acc, Push(p, c)), Push(Push(p, c), d))
  {
    ForestLogOne(Snoc(acc, Push(p, c)), Push(p, c), Scope(d, []));
  }

  lemma {:induction false} FieldEquivalence(acc: Log, p: Path, f: FieldExpr, st: Settings)
    ensures FieldLog(acc, p, f, st) == ScopeLog(acc, p, FieldScope(f, st))
    decreases f
  {
    var q := Push(p, Field);
    match f
    case NamedField(_) => ScopeLogChain(acc, p, Field, FieldReference);
    case Val(_) => ScopeLogChain(acc, p, Field, FieldValue);
    case FieldAs(inner, _) =>
      if st.declareFields {
        var a := Snoc(Snoc(acc, q), Push(q, FieldAlias));
        FieldEquivalence(a, Push(q, FieldAlias), inner, st);
        ForestLogOne(a, Push(q, FieldAlias), FieldScope(inner, st));
        ForestLogOne(Snoc(acc, q), q, Scope(FieldAlias, [FieldScope(inner, st)]));
      } else {
        ScopeLogChain(acc, p, Field, FieldReference);
      }
  }

  lemma {:induction false} FieldsEquivalence(acc: Log, p: Path, fs: seq<FieldExpr>, st: Settings)
    ensures FieldsLog(acc, p, fs, st) == ForestLog(acc, p, FieldScopes(fs, st))
    decreases fs
  {
    if fs != [] {
      FieldEquivalence(acc, p, fs[0], st);
      ForestLogCons(acc, p, FieldScope(fs[0], st), FieldScopes(fs[1..], st));
      FieldsEquivalence(FieldLog(acc, p, fs[0], st), p, fs[1..], st);
    }
  }

  lemma RowEquivalence(acc: Log, p: Path, fs: seq<FieldExpr>, st: Settings)
    ensures RowLog(acc, p, fs, st) == ScopeLog(acc, p, RowScope(fs, st))
  {
    FieldsEquivalence(Snoc(acc, Push(p, FieldRow)), Push(p, FieldRow), fs, st);
  }

  lemma {:induction false} RowsEquivalence(acc: Log, p: Path, rows: seq<seq<FieldExpr>>, st: Settings)
    ensures RowsLog(acc, p, rows, st) == ForestLog(acc, p, RowScopes(rows, st))
    decreases rows
  {
    if rows != [] {
      RowEquivalence(acc, p, rows[0], st);
      ForestLogCons(acc, p, RowScope(rows[0], st), RowScopes(rows[1..], st));
      RowsEquivalence(RowLog(acc, p, rows[0], st), p, rows[1..], st);
    }
  }

  lemma {:induction false} TableEquivalence(acc: Log, p: Path, t: TableExpr, st: Settings)
    ensures TableLog(acc, p, t, st) == ScopeLog(acc, p, TableScope(t, st))
    decreases t
  {
    var q := Push(p, Table);
    match t
    case NamedTable(_) => ScopeLogChain(acc, p, Table, TableReference);
    case TableAs(inner, _) =>
      if st.declareTables {
        var a := Snoc(Snoc(acc, q), Push(q, TableAlias));
        TableEquivalence(a, Push(q, TableAlias), inner, st);
        ForestLogOne(a, Push(q, TableAlias), TableScope(inner, st));
        ForestLogOne(Snoc(acc, q), q, Scope(TableAlias, [TableScope(inner, st)]));
      } else {
        ScopeLogChain(acc, p, Table, TableReference);
      }
    case ValuesTable(rows) =>
      RowsEquivalence(Snoc(Snoc(acc, q), Push(q, TableValues)), Push(q, TableValues), rows, st);
      ForestLogOne(Snoc(acc, q), q, Scope(TableValues, RowScopes(rows, st)));
  }

  lemma {:induction false} TablesEquivalence(acc: Log, p: Path, ts: seq<TableExpr>, st: Settings)
    ensures TablesLog(acc, p, ts, st) == ForestLog(acc, p, TableScopes(ts, st))
    decreases ts
  {
    if ts != [] {
      TableEquivalence(acc, p, ts[0], st);
      ForestLogCons(acc, p, TableScope(ts[0], st), TableScopes(ts[1..], st));
      TablesEquivalence(TableLog(acc, p, ts[0], st), p, ts[1..], st);
    }
  }

  lemma OperandEquivalence(acc: Log, p: Path, o: Operand, st: Settings)
    ensures OperandLog(acc, p, o, st) == ScopeLog(acc, p, OperandScope(o, st))
  {
    match o
    case Single(f) => FieldEquivalence(acc, p, f, st);
    case RowOf(fs) => RowEquivalence(acc, p, fs, st);
  }

  lemma {:induction false} OperandsEquivalence(acc: Log, p: Path, os: seq<Operand>, st: Settings)
    ensures OperandsLog(acc, p, os, st) == ForestLog(acc, p, OperandScopes(os, st))
    decreases os
  {
    if os != [] {
      OperandEquivalence(acc, p, os[0], st);
      ForestLogCons(acc, p, OperandScope(os[0], st), OperandScopes(os[1..], st));
      OperandsEquivalence(OperandLog(acc, p, os[0], st), p, os[1..], st);
    }
  }

  lemma TwoScopes(acc: Log, p: Path, a: Scope, b: Scope)
    ensures ForestLog(acc, p, [a, b]) == ScopeLog(ScopeLog(acc, p, a), p, b)
  {
    assert [a, b] == [a] + [b];
    ForestLogCons(acc, p, a, [b]);
    ForestLogOne(ScopeLog(acc, p, a), p, b);
  }

  lemma {:induction false} ConditionEquivalence(acc: Log, p: Path, c: ConditionExpr, st: Settings)
    ensures ConditionLog(acc, p, c, st) == ScopeLog(acc, p, ConditionScope(c, st))
    decreases c, 1
  {
    var pc := Push(p, Condition);
    var q := Push(pc, ConditionTag(c));
    ConditionBodyEquivalence(Snoc(Snoc(acc, pc), q), q, c, st);
    ForestLogOne(Snoc(acc, pc), pc, Scope(ConditionTag(c), ConditionOperands(c, st)));
  }

  lemma {:induction false} ConditionBodyEquivalence(acc: Log, q: Path, c: ConditionExpr, st: Settings)
    ensures ConditionBodyLog(acc, q, c, st) == ForestLog(acc, q, ConditionOperands(c, st))
    decreases c, 0
  {
    match c
    case Compare(_, l, r) =>
      OperandEquivalence(acc, q, l, st);
      OperandEquivalence(OperandLog(acc, q, l, st), q, r, st);
      TwoScopes(acc, q, OperandScope(l, st), OperandScope(r, st));
    case IsNull(a) =>
      OperandEquivalence(acc, q, a, st);
      ForestLogOne(acc, q, OperandScope(a, st));
    case IsNotNull(a) =>
      OperandEquivalence(acc, q, a, st);
      ForestLogOne(acc, q, OperandScope(a, st));
    case InList(a, candidates, _) =>
      OperandEquivalence(acc, q, a, st);
      ForestLogCons(acc, q, OperandScope(a, st), OperandScopes(candidates, st));
      OperandsEquivalence(OperandLog(acc, q, a, st), q, candidates, st);
    case Between(a, low, high, _, _) =>
      var a1 := OperandLog(acc, q, a, st);
      var a2 := OperandLog(a1, q, low, st);
      OperandEquivalence(acc, q, a, st);
      OperandEquivalence(a1, q, low, st);
      OperandEquivalence(a2, q, high, st);
      assert [OperandScope(a, st), OperandScope(low, st), OperandScope(high, st)]
        == [OperandScope(a, st)] + [OperandScope(low, st), OperandScope(high, st)];
      ForestLogCons(acc, q, OperandScope(a, st), [OperandScope(low, st), OperandScope(high, st)]);
      TwoScopes(a1, q, OperandScope(low, st), OperandScope(high, st));
    case Exists(query, _) =>
      SelectEquivalence(acc, q, query, st);
      ForestLogOne(acc, q, SelectScope(query, st));
    case Not(operand) =>
      ConditionEquivalence(acc, q, operand, st);
      ForestLogOne(acc, q, ConditionScope(operand, st));
    case And(l, r) =>
      ConditionEquivalence(acc, q, l, st);
      ConditionEquivalence(ConditionLog(acc, q, l, st), q, r, st);
      TwoScopes(acc, q, ConditionScope(l, st), ConditionScope(r, st));
    case Or(l, r) =>
      ConditionEquivalence(acc, q, l, st);
      ConditionEquivalence(ConditionLog(acc, q, l, st), q, r, st);
      TwoScopes(acc, q, ConditionScope(l, st), ConditionScope(r, st));
  }

  lemma {:induction false} WhereEquivalence(acc: Log, p: Path, w: Option<ConditionExpr>, st: Settings)
    ensures WhereLog(acc, p, w, st) == ForestLog(acc, p, WhereScopes(w, st))
    decreases w
  {
    match w
    case None =>
    case Some(c) =>
      ConditionEquivalence(acc, p, c, st);
      ForestLogOne(acc, p, ConditionScope(c, st));
  }

  lemma FromEquivalence(acc: Log, p: Path, ts: seq<TableExpr>, st: Settings)
    ensures FromLog(acc, p, ts, st) == ForestLog(acc, p, FromScopes(ts, st))
  {
    if ts != [] {
      TablesEquivalence(acc, p, ts, st);
    } else if NeedsDual(st.dialect) {
      ForestLogOne(acc, p, Scope(Table, []));
    }
  }

  /** Walking regions that are all empty logs one path per region. */
  lemma EmptySlots(acc: Log, p: Path, c1: Clause, c2: Clause, c3: Clause, c4: Clause, c5: Clause)
    ensures ForestLog(acc, p, [Scope(c1, []), Scope(c2, []), Scope(c3, []), Scope(c4, []), Scope(c5, [])])
      == Snoc(Snoc(Snoc(Snoc(Snoc(acc, Push(p, c1)), Push(p, c2)), Push(p, c3)), Push(p, c4)), Push(p, c5))
  {
    var s := [Scope(c1, []), Scope(c2, []), Scope(c3, []), Scope(c4, []), Scope(c5, [])];
    ForestLogCons(acc, p, s[0], s[1..]);
    assert s == [s[0]] + s[1..];
    var t := s[1..];
    assert t == [t[0]] + t[1..];
    ForestLogCons(Snoc(acc, Push(p, c1)), p, t[0], t[1..]);
    var u := t[1..];
    assert u == [u[0]] + u[1..];
    ForestLogCons(Snoc(Snoc(acc, Push(p, c1)), Push(p, c2)), p, u[0], u[1..]);
    var v := u[1..];
    assert v == [v[0], v[1]];
    TwoScopes(Snoc(Snoc(Snoc(acc, Push(p, c1)), Push(p, c2)), Push(p, c3)), p, v[0], v[1]);
  }

  lemma {:induction false} SelectEquivalence(acc: Log, p: Path, query: SelectQuery, st: Settings)
    ensures SelectLog(acc, p, query, st) == ScopeLog(acc, p, SelectScope(query, st))
    decreases query
  {
    var q := Push(p, Select);
    var s1 := Scope(SelectSelect, FieldScopes(query.fields, st));
    var s2 := Scope(SelectFrom, FromScopes(query.tables, st));
    var s3 := Scope(SelectWhere, WhereScopes(query.where, st));
    var rest := [Scope(SelectStartWith, []), Scope(SelectConnectBy, []), Scope(SelectGroupBy, []),
      Scope(SelectHaving, []), Scope(SelectOrderBy, [])];
    assert SelectScope(query, st).body == [s1] + ([s2] + ([s3] + rest));
    var a0 := Snoc(acc, q);
    FieldsEquivalence(Snoc(a0, Push(q, SelectSelect)), Push(q, SelectSelect), query.fields, st);
    var a1 := ScopeLog(a0, q, s1);
    FromEquivalence(Snoc(a1, Push(q, SelectFrom)), Push(q, SelectFrom), query.tables, st);
    var a2 := ScopeLog(a1, q, s2);
    WhereEquivalence(Snoc(a2, Push(q, SelectWhere)), Push(q, SelectWhere), query.where, st);
    var a3 := ScopeLog(a2, q, s3);
    ForestLogCons(a0, q, s1, [s2] + ([s3] + rest));
    ForestLogCons(a1, q, s2, [s3] + rest);
    ForestLogCons(a2, q, s3, rest);
    EmptySlots(a3, q, SelectStartWith, SelectConnectBy, SelectGroupBy, SelectHaving, SelectOrderBy);
  }

  lemma {:induction false} AssignmentsEquivalence(acc: Log, p: Path, tag: Clause, assignments: seq<Assignment>, st: Settings)
    ensures AssignmentsLog(acc, p, tag, assignments, st) == ForestLog(acc, p, AssignmentScopes(tag, assignments, st))
    decreases assignments
  {
    if assignments != [] {
      var q := Push(p, tag);
      var x := assignments[0];
      var s := Scope(tag, [OperandScope(x.target, st), OperandScope(x.value, st)]);
      OperandEquivalence(Snoc(acc, q), q, x.target, st);
      OperandEquivalence(OperandLog(Snoc(acc, q), q, x.target, st), q, x.value, st);
      TwoScopes(Snoc(acc, q), q, OperandScope(x.target, st), OperandScope(x.value, st));
      ForestLogCons(acc, p, s, AssignmentScopes(tag, assignments[1..], st));
      AssignmentsEquivalence(ScopeLog(acc, p, s), p, tag, assignments[1..], st);
    }
  }

  lemma {:induction false} RowSelectsEquivalence(acc: Log, p: Path, rows: seq<seq<FieldExpr>>, st: Settings)
    ensures RowSelectsLog(acc, p, rows, st) == ForestLog(acc, p, RowSelectScopes(rows, st))
    decreases rows
  {
    if rows != [] {
      SelectEquivalence(acc, p, RowSelect(rows[0]), st);
      ForestLogCons(acc, p, SelectScope(RowSelect(rows[0]), st), RowSelectScopes(rows[1..], st));
      RowSelectsEquivalence(SelectLog(acc, p, RowSelect(rows[0]), st), p, rows[1..], st);
    }
  }

  lemma InsertSourceEquivalence(acc: Log, p: Path, source: InsertSource, st: Settings)
    ensures InsertSourceLog(acc, p, source, st) == ScopeLog(acc, p, InsertSourceScope(source, st))
  {
    match source
    case Rows(rows) =>
      if EmulatesMultiRow(rows, st.dialect) {
        var pi := Push(p, InsertSelect);
        var q := Push(pi, SelectUnionAll);
        RowSelectsEquivalence(Snoc(Snoc(acc, pi), q), q, rows, st);
        ForestLogOne(Snoc(acc, pi), pi, Scope(SelectUnionAll, RowSelectScopes(rows, st)));
      } else {
        RowsEquivalence(Snoc(acc, Push(p, InsertValues)), Push(p, InsertValues), rows, st);
      }
    case FromSelect(query) =>
      SelectEquivalence(Snoc(acc, Push(p, InsertSelect)), Push(p, InsertSelect), query, st);
      ForestLogOne(Snoc(acc, Push(p, InsertSelect)), Push(p, InsertSelect), SelectScope(query, st));
  }

  lemma InsertEquivalence(acc: Log, p: Path, i: InsertQuery, st: Settings)
    ensures InsertLog(acc, p, i, st) == ScopeLog(acc, p, InsertScope(i, st))
  {
    var q := Push(p, Insert);
    var into := Push(q, InsertInsertInto);
    var body := InsertScope(i, st).body;
    var s1 := body[0];
    var s2 := body[1];
    var s3 := body[2];
    var s4 := body[3];
    assert body == [s1] + ([s2] + [s3, s4]);
    var a0 := Snoc(acc, q);
    TableEquivalence(Snoc(a0, into), into, i.into, st);
    ForestLogCons(Snoc(a0, into), into, TableScope(i.into, st), FieldScopes(i.columns, st));
    FieldsEquivalence(TableLog(Snoc(a0, into), into, i.into, st), into, i.columns, st);
    var a1 := ScopeLog(a0, q, s1);
    InsertSourceEquivalence(a1, q, i.source, st);
    var a2 := ScopeLog(a1, q, s2);
    var dup := Push(q, InsertOnDuplicateKeyUpdate);
    if NativeOnDuplicateKeyUpdate(st.dialect) {
      AssignmentsEquivalence(Snoc(a2, dup), dup, InsertOnDuplicateKeyUpdateAssignment, i.onDuplicateKeyUpdate, st);
    }
    var a3 := ScopeLog(a2, q, s3);
    var ret := Push(q, InsertReturning);
    if NativeReturning(st.dialect) {
      FieldsEquivalence(Snoc(a3, ret), ret, i.returning, st);
    }
    ForestLogCons(a0, q, s1, [s2] + [s3, s4]);
    ForestLogCons(a1, q, s2, [s3, s4]);
    TwoScopes(a2, q, s3, s4);
  }

  lemma UpdateEquivalence(acc: Log, p: Path, u: UpdateQuery, st: Settings)
    ensures UpdateLog(acc, p, u, st) == ScopeLog(acc, p, UpdateScope(u, st))
  {
    var q := Push(p, Update);
    var body := UpdateScope(u, st).body;
    var s1 := body[0];
    var s2 := body[1];
    var s3 := body[2];
    var s4 := body[3];
    assert body == [s1] + ([s2] + [s3, s4]);
    var a0 := Snoc(acc, q);
    TableEquivalence(Snoc(a0, Push(q, UpdateUpdate)), Push(q, UpdateUpdate), u.table, st);
    ForestLogOne(Snoc(a0, Push(q, UpdateUpdate)), Push(q, UpdateUpdate), TableScope(u.table, st));
    var a1 := ScopeLog(a0, q, s1);
    AssignmentsEquivalence(Snoc(a1, Push(q, UpdateSet)), Push(q, UpdateSet), UpdateSetAssignment, u.assignments, st);
    var a2 := ScopeLog(a1, q, s2);
    WhereEquivalence(Snoc(a2, Push(q, UpdateWhere)), Push(q, UpdateWhere), u.where, st);
    var a3 := ScopeLog(a2, q, s3);
    var ret := Push(q, UpdateReturning);
    if NativeReturning(st.dialect) {
      FieldsEquivalence(Snoc(a3, ret), ret, u.returning, st);
    }
    ForestLogCons(a0, q, s1, [s2] + [s3, s4]);
    ForestLogCons(a1, q, s2, [s3, s4]);
    TwoScopes(a2, q, s3, s4);
  }

  /**
   * What the dispatcher records for a query part, walking its plan, is what
   * Events states for that query part.
   */
  lemma PartEquivalence(acc: Log, p: Path, part: QueryPart, st: Settings)
    ensures Entries(PartLog(acc, p, part, st)) == Entries(acc) + ScopeSnapshots(p, PartScope(part, st))
  {
    ScopeLogEntries(acc, p, PartScope(part, st));
    match part
    case TablePart(t) => TableEquivalence(acc, p, t, st);
    case FieldPart(f) => FieldEquivalence(acc, p, f, st);
    case ConditionPart(c) => ConditionEquivalence(acc, p, c, st);
    case SelectPart(q) => SelectEquivalence(acc, p, q, st);
    case InsertPart(i) => InsertEquivalence(acc, p, i, st);
    case UpdatePart(u) => UpdateEquivalence(acc, p, u, st);
  }

  /**
   * A part whose events are the log `expected` records the lists of
   * `expected`.
   */
  lemma Renders(part: QueryPart, st: Settings, expected: Log)
    requires PartLog(Empty, Root, part, st) == expected
    ensures Lists(ScopeSnapshots(Root, PartScope(part, st))) == Lists(Entries(expected))
  {
    PartEquivalence(Empty, Root, part, st);
  }

}
