/**
 * How many times a given list of open tags is recorded, for every query
 * part: every slot of a statement opens exactly once whether or not it has
 * content, while what goes inside a slot depends on the query and, for
 * ON DUPLICATE KEY UPDATE, RETURNING and multi-row VALUES, on the dialect.
 */
module Counts {
  import opened Wrappers
  import opened Clauses
  import opened Scopes
  import opened Dialects
  import opened Ast
  import opened Plan
  import opened Properties

  // Reach over short forests, one element at a time.

  lemma ReachSingle(s: Scope, rel: seq<Clause>)
    requires rel != []
    ensures Reach([s], rel) == ScopeReach(s, rel)
  {
    assert [s][1..] == [];
  }

  lemma ReachCons(s: Scope, f: seq<Scope>, rel: seq<Clause>)
    requires rel != []
    ensures Reach([s] + f, rel) == ScopeReach(s, rel) + Reach(f, rel)
  {
    assert ([s] + f)[0] == s;
    assert ([s] + f)[1..] == f;
  }

  lemma Reach4(a: Scope, b: Scope, c: Scope, d: Scope, rel: seq<Clause>)
    requires rel != []
    ensures Reach([a, b, c, d], rel) ==
      ScopeReach(a, rel) + ScopeReach(b, rel) + ScopeReach(c, rel) + ScopeReach(d, rel)
  {
    ReachSingle(d, rel);
    ReachCons(c, [d], rel);
    assert [c] + [d] == [c, d];
    ReachCons(b, [c, d], rel);
    assert [b] + [c, d] == [b, c, d];
    ReachCons(a, [b, c, d], rel);
    assert [a] + [b, c, d] == [a, b, c, d];
  }

  lemma Reach8(a: Scope, b: Scope, c: Scope, d: Scope, e: Scope, f: Scope, g: Scope, h: Scope, rel: seq<Clause>)
    requires rel != []
    ensures Reach([a, b, c, d, e, f, g, h], rel) ==
      ScopeReach(a, rel) + ScopeReach(b, rel) + ScopeReach(c, rel) + ScopeReach(d, rel) +
      ScopeReach(e, rel) + ScopeReach(f, rel) + ScopeReach(g, rel) + ScopeReach(h, rel)
  {
    Reach4(a, b, c, d, rel);
    Reach4(e, f, g, h, rel);
    assert [a, b, c, d, e, f, g, h] == [a, b, c, d] + [e, f, g, h];
    ReachAppend([a, b, c, d], [e, f, g, h], rel);
  }

  /** Following `c` then `rel` from a region `c` is following `rel` from its body. */
  lemma ScopeReachStep(c: Clause, body: seq<Scope>, rel: seq<Clause>)
    requires rel != []
    ensures ScopeReach(Scope(c, body), [c] + rel) == Reach(body, rel)
  {
    assert ([c] + rel)[0] == c;
    assert ([c] + rel)[1..] == rel;
  }

  /** The recorded lists that start with the part's own tag `c` and continue with `rel`. */
  lemma RecordedReach(part: QueryPart, st: Settings, c: Clause, rel: seq<Clause>)
    requires rel != [] && PartScope(part, st).clause == c
    ensures Occurrences(Recorded(part, st), [c] + rel) == Reach(PartScope(part, st).body, rel)
  {
    RecordedCount(part, st, [c] + rel);
    ReachSingle(PartScope(part, st), [c] + rel);
    ScopeReachStep(c, PartScope(part, st).body, rel);
  }

  // Counting the regions of the plan.

  lemma {:induction false} FieldsReach(fs: seq<FieldExpr>, st: Settings)
    ensures Reach(FieldScopes(fs, st), [Field]) == |fs|
    decreases fs
  {
    if fs != [] {
      FieldsReach(fs[1..], st);
      ReachCons(FieldScope(fs[0], st), FieldScopes(fs[1..], st), [Field]);
    }
  }

  lemma {:induction false} TablesReach(ts: seq<TableExpr>, st: Settings)
    ensures Reach(TableScopes(ts, st), [Table]) == |ts|
    decreases ts
  {
    if ts != [] {
      TablesReach(ts[1..], st);
      ReachCons(TableScope(ts[0], st), TableScopes(ts[1..], st), [Table]);
    }
  }

  lemma {:induction false} RowsReach(rows: seq<seq<FieldExpr>>, st: Settings)
    ensures Reach(RowScopes(rows, st), [FieldRow]) == |rows|
    decreases rows
  {
    if rows != [] {
      RowsReach(rows[1..], st);
      ReachCons(RowScope(rows[0], st), RowScopes(rows[1..], st), [FieldRow]);
    }
  }

  lemma {:induction false} AssignmentsReach(tag: Clause, assignments: seq<Assignment>, st: Settings)
    ensures Reach(AssignmentScopes(tag, assignments, st), [tag]) == |assignments|
    decreases assignments
  {
    if assignments != [] {
      var a := assignments[0];
      AssignmentsReach(tag, assignments[1..], st);
      ReachCons(Scope(tag, [OperandScope(a.target, st), OperandScope(a.value, st)]),
        AssignmentScopes(tag, assignments[1..], st), [tag]);
    }
  }

  /** One step below eight regions: how many of their tags are `t`. */
  lemma EightReach(c0: Clause, c1: Clause, c2: Clause, c3: Clause, c4: Clause, c5: Clause, c6: Clause, c7: Clause,
                   f0: seq<Scope>, f1: seq<Scope>, f2: seq<Scope>, f3: seq<Scope>,
                   f4: seq<Scope>, f5: seq<Scope>, f6: seq<Scope>, f7: seq<Scope>, t: Clause)
    ensures Reach([Scope(c0, f0), Scope(c1, f1), Scope(c2, f2), Scope(c3, f3),
                   Scope(c4, f4), Scope(c5, f5), Scope(c6, f6), Scope(c7, f7)], [t]) ==
      (if c0 == t then 1 else 0) + (if c1 == t then 1 else 0) + (if c2 == t then 1 else 0) +
      (if c3 == t then 1 else 0) + (if c4 == t then 1 else 0) + (if c5 == t then 1 else 0) +
      (if c6 == t then 1 else 0) + (if c7 == t then 1 else 0)
  {
    Reach8(Scope(c0, f0), Scope(c1, f1), Scope(c2, f2), Scope(c3, f3),
           Scope(c4, f4), Scope(c5, f5), Scope(c6, f6), Scope(c7, f7), [t]);
  }

  /** The eight SELECT slots are distinct. */
  lemma SelectSlotsTally(t: Clause)
    ensures (if SelectSelect == t then 1 else 0) + (if SelectFrom == t then 1 else 0) +
      (if SelectWhere == t then 1 else 0) + (if SelectStartWith == t then 1 else 0) +
      (if SelectConnectBy == t then 1 else 0) + (if SelectGroupBy == t then 1 else 0) +
      (if SelectHaving == t then 1 else 0) + (if SelectOrderBy == t then 1 else 0) ==
      if t in SelectSlots then 1 else 0
  {
  }

  /** Every SELECT opens each of its eight slots once, and nothing else, directly inside it. */
  lemma SelectSlotReach(q: SelectQuery, st: Settings, t: Clause)
    ensures ScopeReach(SelectScope(q, st), [Select, t]) == if t in SelectSlots then 1 else 0
  {
    assert [Select, t] == [Select] + [t];
    ScopeReachStep(Select, SelectScope(q, st).body, [t]);
    EightReach(SelectSelect, SelectFrom, SelectWhere, SelectStartWith,
      SelectConnectBy, SelectGroupBy, SelectHaving, SelectOrderBy,
      FieldScopes(q.fields, st), FromScopes(q.tables, st), WhereScopes(q.where, st), [], [], [], [], [], t);
    SelectSlotsTally(t);
  }

  /** No region of `f` has tag `f[i].clause` but `f[i]`. */
  predicate Distinct(f: seq<Scope>, i: int)
    requires 0 <= i < |f|
  {
    forall j :: 0 <= j < |f| && j != i ==> f[j].clause != f[i].clause
  }

  lemma {:induction false} ReachNone(f: seq<Scope>, rel: seq<Clause>)
    requires rel != []
    requires forall j :: 0 <= j < |f| ==> f[j].clause != rel[0]
    ensures Reach(f, rel) == 0
    decreases f
  {
    if f != [] {
      ReachNone(f[1..], rel);
    }
  }

  /** In a region whose child tags are distinct, child `i` is reached once and `rel` below it only inside it. */
  lemma {:induction false} SlotReach(f: seq<Scope>, i: int, rel: seq<Clause>)
    requires 0 <= i < |f| && rel != []
    requires Distinct(f, i)
    ensures Reach(f, [f[i].clause]) == 1
    ensures Reach(f, [f[i].clause] + rel) == Reach(f[i].body, rel)
    decreases f
  {
    var r := [f[i].clause] + rel;
    assert r[0] == f[i].clause && r[1..] == rel;
    if i == 0 {
      ReachNone(f[1..], [f[i].clause]);
      ReachNone(f[1..], r);
    } else {
      assert f[1..][i - 1] == f[i];
      SlotReach(f[1..], i - 1, rel);
    }
  }

  /** One SELECT per row when a multi-row INSERT is emulated, each with all eight slots. */
  lemma {:induction false} RowSelectsReach(rows: seq<seq<FieldExpr>>, st: Settings, t: Clause)
    ensures Reach(RowSelectScopes(rows, st), [Select]) == |rows|
    ensures Reach(RowSelectScopes(rows, st), [Select, t]) == if t in SelectSlots then |rows| else 0
    decreases rows
  {
    if rows != [] {
      var s := SelectScope(RowSelect(rows[0]), st);
      RowSelectsReach(rows[1..], st, t);
      ReachCons(s, RowSelectScopes(rows[1..], st), [Select]);
      ReachCons(s, RowSelectScopes(rows[1..], st), [Select, t]);
      SelectSlotReach(RowSelect(rows[0]), st, t);
    }
  }

  /** A single operand renders as a FIELD, a row value expression as a FIELD_ROW of its fields. */
  lemma OperandReach(o: Operand, st: Settings)
    ensures ScopeReach(OperandScope(o, st), [Field]) == if o.Single? then 1 else 0
    ensures ScopeReach(OperandScope(o, st), [FieldRow]) == if o.RowOf? then 1 else 0
    ensures ScopeReach(OperandScope(o, st), [FieldRow, Field]) == if o.RowOf? then |o.fields| else 0
  {
    if o.RowOf? {
      assert [FieldRow, Field] == [FieldRow] + [Field];
      ScopeReachStep(FieldRow, FieldScopes(o.fields, st), [Field]);
      FieldsReach(o.fields, st);
    }
  }

  /** How many of the operands `os` are single fields. */
  function SingleCount(os: seq<Operand>): nat
  {
    if os == [] then 0 else (if os[0].Single? then 1 else 0) + SingleCount(os[1..])
  }

  /** How many of the operands `os` are row value expressions. */
  function RowCount(os: seq<Operand>): nat
  {
    if os == [] then 0 else (if os[0].RowOf? then 1 else 0) + RowCount(os[1..])
  }

  /** The number of fields inside the row value expressions among `os`. */
  function RowWidth(os: seq<Operand>): nat
  {
    if os == [] then 0 else (if os[0].RowOf? then |os[0].fields| else 0) + RowWidth(os[1..])
  }

  /** A list of operands records a FIELD per single operand and a FIELD_ROW of its fields per row. */
  lemma {:induction false} OperandsReach(os: seq<Operand>, st: Settings)
    ensures Reach(OperandScopes(os, st), [Field]) == SingleCount(os)
    ensures Reach(OperandScopes(os, st), [FieldRow]) == RowCount(os)
    ensures Reach(OperandScopes(os, st), [FieldRow, Field]) == RowWidth(os)
    decreases os
  {
    if os != [] {
      var rest := OperandScopes(os[1..], st);
      OperandsReach(os[1..], st);
      ReachCons(OperandScope(os[0], st), rest, [Field]);
      ReachCons(OperandScope(os[0], st), rest, [FieldRow]);
      ReachCons(OperandScope(os[0], st), rest, [FieldRow, Field]);
      OperandReach(os[0], st);
    }
  }

  /** The two sides of every assignment, target before value, in order. */
  function AssignmentSides(assignments: seq<Assignment>): (r: seq<Operand>)
    ensures |r| == 2 * |assignments|
    ensures forall k :: 0 <= k < |assignments| ==>
      r[2 * k] == assignments[k].target && r[2 * k + 1] == assignments[k].value
  {
    if assignments == [] then []
    else [assignments[0].target, assignments[0].value] + AssignmentSides(assignments[1..])
  }

  /** Below the `tag` regions of a list of assignments lie exactly the regions of their sides. */
  lemma {:induction false} AssignmentsBelow(tag: Clause, assignments: seq<Assignment>, st: Settings, rel: seq<Clause>)
    requires rel != []
    ensures Reach(AssignmentScopes(tag, assignments, st), [tag] + rel) ==
      Reach(OperandScopes(AssignmentSides(assignments), st), rel)
    decreases assignments
  {
    if assignments != [] {
      var a := assignments[0];
      var t := OperandScope(a.target, st);
      var v := OperandScope(a.value, st);
      var sides := AssignmentSides(assignments[1..]);
      var rest := OperandScopes(sides, st);
      AssignmentsBelow(tag, assignments[1..], st, rel);
      ReachCons(Scope(tag, [t, v]), AssignmentScopes(tag, assignments[1..], st), [tag] + rel);
      ScopeReachStep(tag, [t, v], rel);
      ReachSingle(v, rel);
      ReachCons(t, [v], rel);
      assert [t] + [v] == [t, v];
      var os := [a.target, a.value] + sides;
      assert os[1..] == [a.value] + sides;
      assert ([a.value] + sides)[1..] == sides;
      assert OperandScopes(os, st) == [t] + ([v] + rest);
      ReachCons(v, rest, rel);
      ReachCons(t, [v] + rest, rel);
    }
  }

  // What the recorded lists hold, statement by statement.

  /** A SELECT records each slot once, even the empty ones. */
  lemma SelectSlotRecorded(q: SelectQuery, st: Settings, t: Clause)
    ensures Occurrences(Recorded(SelectPart(q), st), [Select, t]) == if t in SelectSlots then 1 else 0
  {
    RecordedCount(SelectPart(q), st, [Select, t]);
    ReachSingle(SelectScope(q, st), [Select, t]);
    SelectSlotReach(q, st, t);
  }

  /** Slot `i` of the part's plan, followed by `rel`, is recorded once per region `rel` reaches in it. */
  lemma SlotRecorded(part: QueryPart, st: Settings, i: int, rel: seq<Clause>)
    requires rel != []
    requires 0 <= i < |PartScope(part, st).body|
    requires Distinct(PartScope(part, st).body, i)
    ensures Occurrences(Recorded(part, st), [PartScope(part, st).clause, PartScope(part, st).body[i].clause] + rel) ==
      Reach(PartScope(part, st).body[i].body, rel)
  {
    var s := PartScope(part, st);
    assert [s.clause, s.body[i].clause] + rel == [s.clause] + ([s.body[i].clause] + rel);
    RecordedReach(part, st, s.clause, [s.body[i].clause] + rel);
    SlotReach(s.body, i, rel);
  }

  /** The tags of the SELECT slots are distinct, so each slot is reached on its own. */
  lemma SelectDistinct(q: SelectQuery, st: Settings, i: int)
    requires 0 <= i < |SelectSlots|
    ensures |SelectScope(q, st).body| == |SelectSlots|
    ensures SelectScope(q, st).body[i].clause == SelectSlots[i]
    ensures Distinct(SelectScope(q, st).body, i)
  {
    var b := SelectScope(q, st).body;
    forall j | 0 <= j < |b| && j != i
      ensures b[j].clause != b[i].clause
    {
      assert b[j].clause == SelectSlots[j];
    }
  }

  /** What the SELECT records inside slot `i`: the regions `rel` reaches in that slot's content. */
  lemma SelectSlotContent(q: SelectQuery, st: Settings, i: int, rel: seq<Clause>)
    requires 0 <= i < |SelectSlots| && rel != []
    ensures Occurrences(Recorded(SelectPart(q), st), [Select, SelectSlots[i]] + rel) ==
      Reach(SelectScope(q, st).body[i].body, rel)
  {
    SelectDistinct(q, st, i);
    SlotRecorded(SelectPart(q), st, i, rel);
  }

  /** A SELECT records one FIELD per selected field. */
  lemma SelectFieldsRecorded(q: SelectQuery, st: Settings)
    ensures Occurrences(Recorded(SelectPart(q), st), [Select, SelectSelect, Field]) == |q.fields|
  {
    assert [Select, SelectSelect, Field] == [Select, SelectSlots[0]] + [Field];
    SelectSlotContent(q, st, 0, [Field]);
    FieldsReach(q.fields, st);
  }

  /** A SELECT records one TABLE per table; without tables, the one `dual` table where the dialect needs it. */
  lemma SelectFromRecorded(q: SelectQuery, st: Settings)
    ensures Occurrences(Recorded(SelectPart(q), st), [Select, SelectFrom, Table]) ==
      if q.tables != [] then |q.tables| else if NeedsDual(st.dialect) then 1 else 0
  {
    assert [Select, SelectFrom, Table] == [Select, SelectSlots[1]] + [Table];
    SelectSlotContent(q, st, 1, [Table]);
    if q.tables != [] {
      TablesReach(q.tables, st);
    } else if NeedsDual(st.dialect) {
      ReachSingle(Scope(Table, []), [Table]);
    }
  }

  /** A SELECT records its WHERE condition only when it has one; the slot itself opens regardless. */
  lemma SelectWhereRecorded(q: SelectQuery, st: Settings)
    ensures Occurrences(Recorded(SelectPart(q), st), [Select, SelectWhere, Condition]) ==
      if q.where.Some? then 1 else 0
  {
    assert [Select, SelectWhere, Condition] == [Select, SelectSlots[2]] + [Condition];
    SelectSlotContent(q, st, 2, [Condition]);
    if q.where.Some? {
      ReachSingle(ConditionScope(q.where.value, st), [Condition]);
    }
  }
}
