/**
 * What UPDATE, INSERT and the conditions record inside their regions, for
 * every query: which slots open whatever their content, how many regions
 * each slot holds, and where the dialect decides between rendering a clause
 * natively, emulating it, or leaving its slot empty.
 */
module Statements {
  import opened Wrappers
  import opened Clauses
  import opened Paths
  import opened Scopes
  import opened Dialects
  import opened Ast
  import opened Plan
  import opened Properties
  import opened Counts

  /** The slots every UPDATE opens, in render order. */
  const UpdateSlots := [UpdateUpdate, UpdateSet, UpdateWhere, UpdateReturning]

  /** The region an INSERT opens for its rows: VALUES, or SELECT when it has a query or emulates several rows. */
  function SourceTag(source: InsertSource, d: Dialect): Clause
  {
    if source.Rows? && !EmulatesMultiRow(source.rows, d) then InsertValues else InsertSelect
  }

  /** The slots an INSERT opens, in render order. */
  function InsertSlots(i: InsertQuery, d: Dialect): seq<Clause>
  {
    [InsertInsertInto, SourceTag(i.source, d), InsertOnDuplicateKeyUpdate, InsertReturning]
  }

  /** The regions of `f` carry the tags `tags`, one each. */
  predicate TaggedAs(f: seq<Scope>, tags: seq<Clause>)
  {
    |f| == |tags| && forall j :: 0 <= j < |f| ==> f[j].clause == tags[j]
  }

  /** With pairwise distinct tags, slot `t` is recorded once if it is one of `tags`, never otherwise. */
  lemma TaggedSlotReach(f: seq<Scope>, tags: seq<Clause>, t: Clause)
    requires TaggedAs(f, tags)
    requires forall j, k :: 0 <= j < k < |tags| ==> tags[j] != tags[k]
    ensures Reach(f, [t]) == if t in tags then 1 else 0
  {
    if t in tags {
      var i :| 0 <= i < |tags| && tags[i] == t;
      assert Distinct(f, i) by {
        forall j | 0 <= j < |f| && j != i
          ensures f[j].clause != f[i].clause
        {
          if j < i { assert tags[j] != tags[i]; } else { assert tags[i] != tags[j]; }
        }
      }
      SlotReach(f, i, [Clause.Field]);
    } else {
      ReachNone(f, [t]);
    }
  }

  // UPDATE

  lemma UpdateTagged(u: UpdateQuery, st: Settings)
    ensures TaggedAs(UpdateScope(u, st).body, UpdateSlots)
    ensures forall j, k :: 0 <= j < k < |UpdateSlots| ==> UpdateSlots[j] != UpdateSlots[k]
  {
  }

  /** An UPDATE records each of its four slots once, even when empty, and no other region directly inside it. */
  lemma UpdateSlotRecorded(u: UpdateQuery, st: Settings, t: Clause)
    ensures Occurrences(Recorded(UpdatePart(u), st), [Update, t]) == if t in UpdateSlots then 1 else 0
  {
    assert [Update, t] == [Update] + [t];
    RecordedReach(UpdatePart(u), st, Update, [t]);
    UpdateTagged(u, st);
    TaggedSlotReach(UpdateScope(u, st).body, UpdateSlots, t);
  }

  /** What the UPDATE records inside slot `i`. */
  lemma UpdateSlotContent(u: UpdateQuery, st: Settings, i: int, rel: seq<Clause>)
    requires 0 <= i < |UpdateSlots| && rel != []
    ensures Occurrences(Recorded(UpdatePart(u), st), [Update, UpdateSlots[i]] + rel) ==
      Reach(UpdateScope(u, st).body[i].body, rel)
  {
    UpdateTagged(u, st);
    assert Distinct(UpdateScope(u, st).body, i);
    SlotRecorded(UpdatePart(u), st, i, rel);
  }

  /** UPDATE names its one table. */
  lemma UpdateTableRecorded(u: UpdateQuery, st: Settings)
    ensures Occurrences(Recorded(UpdatePart(u), st), [Update, UpdateUpdate, Table]) == 1
  {
    assert [Update, UpdateUpdate, Table] == [Update, UpdateSlots[0]] + [Table];
    UpdateSlotContent(u, st, 0, [Table]);
    ReachSingle(TableScope(u.table, st), [Table]);
  }

  /** UPDATE .. SET records one assignment region per assignment. */
  lemma UpdateSetRecorded(u: UpdateQuery, st: Settings)
    ensures Occurrences(Recorded(UpdatePart(u), st), [Update, UpdateSet, UpdateSetAssignment]) == |u.assignments|
  {
    assert [Update, UpdateSet, UpdateSetAssignment] == [Update, UpdateSlots[1]] + [UpdateSetAssignment];
    UpdateSlotContent(u, st, 1, [UpdateSetAssignment]);
    AssignmentsReach(UpdateSetAssignment, u.assignments, st);
  }

  /** UPDATE records a WHERE condition only when it has one. */
  lemma UpdateWhereRecorded(u: UpdateQuery, st: Settings)
    ensures Occurrences(Recorded(UpdatePart(u), st), [Update, UpdateWhere, Condition]) ==
      if u.where.Some? then 1 else 0
  {
    assert [Update, UpdateWhere, Condition] == [Update, UpdateSlots[2]] + [Condition];
    UpdateSlotContent(u, st, 2, [Condition]);
    if u.where.Some? {
      ReachSingle(ConditionScope(u.where.value, st), [Condition]);
    }
  }

  /** UPDATE .. RETURNING records its fields only where the dialect renders RETURNING. */
  lemma UpdateReturningRecorded(u: UpdateQuery, st: Settings)
    ensures Occurrences(Recorded(UpdatePart(u), st), [Update, UpdateReturning, Field]) ==
      if NativeReturning(st.dialect) then |u.returning| else 0
  {
    assert [Update, UpdateReturning, Field] == [Update, UpdateSlots[3]] + [Field];
    UpdateSlotContent(u, st, 3, [Field]);
    if NativeReturning(st.dialect) {
      FieldsReach(u.returning, st);
    }
  }

  /**
   * Inside the SET assignments, whatever their number, every single side is
   * recorded as a FIELD and every row value expression side as a FIELD_ROW
   * holding its fields.
   */
  lemma UpdateAssignmentRowsRecorded(u: UpdateQuery, st: Settings)
    ensures Occurrences(Recorded(UpdatePart(u), st), [Update, UpdateSet, UpdateSetAssignment, Field]) ==
      SingleCount(AssignmentSides(u.assignments))
    ensures Occurrences(Recorded(UpdatePart(u), st), [Update, UpdateSet, UpdateSetAssignment, FieldRow]) ==
      RowCount(AssignmentSides(u.assignments))
    ensures Occurrences(Recorded(UpdatePart(u), st), [Update, UpdateSet, UpdateSetAssignment, FieldRow, Field]) ==
      RowWidth(AssignmentSides(u.assignments))
  {
    var tag := UpdateSetAssignment;
    assert [Update, UpdateSet, tag, Field] == [Update, UpdateSlots[1]] + ([tag] + [Field]);
    assert [Update, UpdateSet, tag, FieldRow] == [Update, UpdateSlots[1]] + ([tag] + [FieldRow]);
    assert [Update, UpdateSet, tag, FieldRow, Field] == [Update, UpdateSlots[1]] + ([tag] + [FieldRow, Field]);
    UpdateSlotContent(u, st, 1, [tag] + [Field]);
    UpdateSlotContent(u, st, 1, [tag] + [FieldRow]);
    UpdateSlotContent(u, st, 1, [tag] + [FieldRow, Field]);
    AssignmentsBelow(tag, u.assignments, st, [Field]);
    AssignmentsBelow(tag, u.assignments, st, [FieldRow]);
    AssignmentsBelow(tag, u.assignments, st, [FieldRow, Field]);
    OperandsReach(AssignmentSides(u.assignments), st);
  }

  lemma ReachPair(a: Scope, b: Scope, rel: seq<Clause>)
    requires rel != []
    ensures Reach([a, b], rel) == ScopeReach(a, rel) + ScopeReach(b, rel)
  {
    ReachSingle(b, rel);
    ReachCons(a, [b], rel);
    assert [a] + [b] == [a, b];
  }

  // INSERT

  lemma InsertTagged(i: InsertQuery, st: Settings)
    ensures TaggedAs(InsertScope(i, st).body, InsertSlots(i, st.dialect))
    ensures forall j, k :: 0 <= j < k < 4 ==> InsertSlots(i, st.dialect)[j] != InsertSlots(i, st.dialect)[k]
  {
  }

  /**
   * An INSERT records INSERT INTO, ON DUPLICATE KEY UPDATE and RETURNING once
   * each whatever the dialect, and exactly one of VALUES and SELECT for its rows.
   */
  lemma InsertSlotRecorded(i: InsertQuery, st: Settings, t: Clause)
    ensures Occurrences(Recorded(InsertPart(i), st), [Insert, t]) == if t in InsertSlots(i, st.dialect) then 1 else 0
  {
    assert [Insert, t] == [Insert] + [t];
    RecordedReach(InsertPart(i), st, Insert, [t]);
    InsertTagged(i, st);
    TaggedSlotReach(InsertScope(i, st).body, InsertSlots(i, st.dialect), t);
  }

  /** What the INSERT records inside slot `k`. */
  lemma InsertSlotContent(i: InsertQuery, st: Settings, k: int, rel: seq<Clause>)
    requires 0 <= k < 4 && rel != []
    ensures Occurrences(Recorded(InsertPart(i), st), [Insert, InsertSlots(i, st.dialect)[k]] + rel) ==
      Reach(InsertScope(i, st).body[k].body, rel)
  {
    InsertTagged(i, st);
    assert Distinct(InsertScope(i, st).body, k);
    SlotRecorded(InsertPart(i), st, k, rel);
  }

  /** INSERT INTO records the target table, then one FIELD per column. */
  lemma InsertIntoRecorded(i: InsertQuery, st: Settings)
    ensures Occurrences(Recorded(InsertPart(i), st), [Insert, InsertInsertInto, Table]) == 1
    ensures Occurrences(Recorded(InsertPart(i), st), [Insert, InsertInsertInto, Field]) == |i.columns|
  {
    assert [Insert, InsertInsertInto, Table] == [Insert, InsertSlots(i, st.dialect)[0]] + [Table];
    assert [Insert, InsertInsertInto, Field] == [Insert, InsertSlots(i, st.dialect)[0]] + [Field];
    InsertSlotContent(i, st, 0, [Table]);
    InsertSlotContent(i, st, 0, [Field]);
    var cols := FieldScopes(i.columns, st);
    ReachCons(TableScope(i.into, st), cols, [Table]);
    ReachCons(TableScope(i.into, st), cols, [Field]);
    FieldsTagged(i.columns, st);
    ReachNone(cols, [Table]);
    FieldsReach(i.columns, st);
  }

  /** Every region of a field list is a FIELD. */
  lemma {:induction false} FieldsTagged(fs: seq<FieldExpr>, st: Settings)
    ensures |FieldScopes(fs, st)| == |fs|
    ensures forall j :: 0 <= j < |fs| ==> FieldScopes(fs, st)[j].clause == Field
    decreases fs
  {
    if fs != [] {
      FieldsTagged(fs[1..], st);
      assert FieldScopes(fs, st) == [FieldScope(fs[0], st)] + FieldScopes(fs[1..], st);
    }
  }

  /** ON DUPLICATE KEY UPDATE records its assignments only in MySQL; elsewhere the slot stays empty. */
  lemma OnDuplicateKeyUpdateRecorded(i: InsertQuery, st: Settings)
    ensures Occurrences(Recorded(InsertPart(i), st),
      [Insert, InsertOnDuplicateKeyUpdate, InsertOnDuplicateKeyUpdateAssignment]) ==
      if st.dialect == MySql then |i.onDuplicateKeyUpdate| else 0
  {
    assert [Insert, InsertOnDuplicateKeyUpdate, InsertOnDuplicateKeyUpdateAssignment] ==
      [Insert, InsertSlots(i, st.dialect)[2]] + [InsertOnDuplicateKeyUpdateAssignment];
    InsertSlotContent(i, st, 2, [InsertOnDuplicateKeyUpdateAssignment]);
    if NativeOnDuplicateKeyUpdate(st.dialect) {
      AssignmentsReach(InsertOnDuplicateKeyUpdateAssignment, i.onDuplicateKeyUpdate, st);
    }
  }

  /**
   * In MySQL each ON DUPLICATE KEY UPDATE assignment records its target and
   * its value: a FIELD per single side, a FIELD_ROW holding its fields per row
   * value expression side. Elsewhere nothing is recorded inside the slot.
   */
  lemma OnDuplicateKeyUpdateContentRecorded(i: InsertQuery, st: Settings)
    ensures Occurrences(Recorded(InsertPart(i), st),
      [Insert, InsertOnDuplicateKeyUpdate, InsertOnDuplicateKeyUpdateAssignment, Field]) ==
      if st.dialect == MySql then SingleCount(AssignmentSides(i.onDuplicateKeyUpdate)) else 0
    ensures Occurrences(Recorded(InsertPart(i), st),
      [Insert, InsertOnDuplicateKeyUpdate, InsertOnDuplicateKeyUpdateAssignment, FieldRow]) ==
      if st.dialect == MySql then RowCount(AssignmentSides(i.onDuplicateKeyUpdate)) else 0
    ensures Occurrences(Recorded(InsertPart(i), st),
      [Insert, InsertOnDuplicateKeyUpdate, InsertOnDuplicateKeyUpdateAssignment, FieldRow, Field]) ==
      if st.dialect == MySql then RowWidth(AssignmentSides(i.onDuplicateKeyUpdate)) else 0
  {
    var tag := InsertOnDuplicateKeyUpdateAssignment;
    var slot := InsertSlots(i, st.dialect)[2];
    assert [Insert, InsertOnDuplicateKeyUpdate, tag, Field] == [Insert, slot] + ([tag] + [Field]);
    assert [Insert, InsertOnDuplicateKeyUpdate, tag, FieldRow] == [Insert, slot] + ([tag] + [FieldRow]);
    assert [Insert, InsertOnDuplicateKeyUpdate, tag, FieldRow, Field] == [Insert, slot] + ([tag] + [FieldRow, Field]);
    InsertSlotContent(i, st, 2, [tag] + [Field]);
    InsertSlotContent(i, st, 2, [tag] + [FieldRow]);
    InsertSlotContent(i, st, 2, [tag] + [FieldRow, Field]);
    if NativeOnDuplicateKeyUpdate(st.dialect) {
      AssignmentsBelow(tag, i.onDuplicateKeyUpdate, st, [Field]);
      AssignmentsBelow(tag, i.onDuplicateKeyUpdate, st, [FieldRow]);
      AssignmentsBelow(tag, i.onDuplicateKeyUpdate, st, [FieldRow, Field]);
      OperandsReach(AssignmentSides(i.onDuplicateKeyUpdate), st);
    }
  }

  /**
   * One assignment region, as SET and ON DUPLICATE KEY UPDATE render it:
   * the region's own tag, then everything its target records, then
   * everything its value records, each nested under the tag.
   */
  lemma AssignmentRecorded(tag: Clause, a: Assignment, st: Settings)
    ensures Lists(ScopeSnapshots(Root, AssignmentScopes(tag, [a], st)[0])) ==
      [[tag]] + Prefixed([tag], Lists(ScopeSnapshots(Root, OperandScope(a.target, st))) +
                                Lists(ScopeSnapshots(Root, OperandScope(a.value, st))))
  {
    var t := OperandScope(a.target, st);
    var v := OperandScope(a.value, st);
    var p := Push(Root, tag);
    assert AssignmentScopes(tag, [a], st)[0] == Scope(tag, [t, v]);
    assert ScopeSnapshots(Root, Scope(tag, [t, v])) == [p] + Snapshots(p, [t, v]);
    ListsAppend([p], Snapshots(p, [t, v]));
    assert ToSeq(p) == [] + [tag] == [tag];
    assert Lists([p]) == [[tag]];
    ListsUnder(p, [t, v]);
    SnapshotsPair(Root, t, v);
    ListsAppend(ScopeSnapshots(Root, t), ScopeSnapshots(Root, v));
  }

  /** INSERT .. RETURNING records its fields only in Postgres; elsewhere the slot stays empty. */
  lemma InsertReturningRecorded(i: InsertQuery, st: Settings)
    ensures Occurrences(Recorded(InsertPart(i), st), [Insert, InsertReturning, Field]) ==
      if st.dialect == Postgres then |i.returning| else 0
  {
    assert [Insert, InsertReturning, Field] == [Insert, InsertSlots(i, st.dialect)[3]] + [Field];
    InsertSlotContent(i, st, 3, [Field]);
    if NativeReturning(st.dialect) {
      FieldsReach(i.returning, st);
    }
  }

  /** Rows the dialect can write natively go into one VALUES region, one FIELD_ROW per row. */
  lemma InsertValuesRecorded(i: InsertQuery, st: Settings)
    requires i.source.Rows? && !EmulatesMultiRow(i.source.rows, st.dialect)
    ensures Occurrences(Recorded(InsertPart(i), st), [Insert, InsertValues]) == 1
    ensures Occurrences(Recorded(InsertPart(i), st), [Insert, InsertSelect]) == 0
    ensures Occurrences(Recorded(InsertPart(i), st), [Insert, InsertValues, FieldRow]) == |i.source.rows|
  {
    InsertSlotRecorded(i, st, InsertValues);
    InsertSlotRecorded(i, st, InsertSelect);
    assert [Insert, InsertValues, FieldRow] == [Insert, InsertSlots(i, st.dialect)[1]] + [FieldRow];
    InsertSlotContent(i, st, 1, [FieldRow]);
    RowsReach(i.source.rows, st);
  }

  /**
   * Several rows in a dialect without multi-row VALUES become
   * INSERT .. SELECT .. UNION ALL SELECT ..: one SELECT per row, each with all its slots.
   */
  lemma InsertEmulatedRecorded(i: InsertQuery, st: Settings, t: Clause)
    requires i.source.Rows? && EmulatesMultiRow(i.source.rows, st.dialect)
    ensures Occurrences(Recorded(InsertPart(i), st), [Insert, InsertValues]) == 0
    ensures Occurrences(Recorded(InsertPart(i), st), [Insert, InsertSelect]) == 1
    ensures Occurrences(Recorded(InsertPart(i), st), [Insert, InsertSelect, SelectUnionAll]) == 1
    ensures Occurrences(Recorded(InsertPart(i), st), [Insert, InsertSelect, SelectUnionAll, Select]) ==
      |i.source.rows|
    ensures Occurrences(Recorded(InsertPart(i), st), [Insert, InsertSelect, SelectUnionAll, Select, t]) ==
      if t in SelectSlots then |i.source.rows| else 0
  {
    InsertSlotRecorded(i, st, InsertValues);
    InsertSlotRecorded(i, st, InsertSelect);
    EmulatedUnion(i, st);
    EmulatedSelects(i, st, t);
  }

  lemma EmulatedUnion(i: InsertQuery, st: Settings)
    requires i.source.Rows? && EmulatesMultiRow(i.source.rows, st.dialect)
    ensures Occurrences(Recorded(InsertPart(i), st), [Insert, InsertSelect, SelectUnionAll]) == 1
  {
    assert [Insert, InsertSelect, SelectUnionAll] == [Insert, InsertSlots(i, st.dialect)[1]] + [SelectUnionAll];
    InsertSlotContent(i, st, 1, [SelectUnionAll]);
    ReachSingle(Scope(SelectUnionAll, RowSelectScopes(i.source.rows, st)), [SelectUnionAll]);
  }

  lemma EmulatedSelects(i: InsertQuery, st: Settings, t: Clause)
    requires i.source.Rows? && EmulatesMultiRow(i.source.rows, st.dialect)
    ensures Occurrences(Recorded(InsertPart(i), st), [Insert, InsertSelect, SelectUnionAll, Select]) ==
      |i.source.rows|
    ensures Occurrences(Recorded(InsertPart(i), st), [Insert, InsertSelect, SelectUnionAll, Select, t]) ==
      if t in SelectSlots then |i.source.rows| else 0
  {
    var u := Scope(SelectUnionAll, RowSelectScopes(i.source.rows, st));
    assert [Insert, InsertSelect, SelectUnionAll, Select] ==
      [Insert, InsertSlots(i, st.dialect)[1]] + [SelectUnionAll, Select];
    assert [Insert, InsertSelect, SelectUnionAll, Select, t] ==
      [Insert, InsertSlots(i, st.dialect)[1]] + [SelectUnionAll, Select, t];
    InsertSlotContent(i, st, 1, [SelectUnionAll, Select]);
    InsertSlotContent(i, st, 1, [SelectUnionAll, Select, t]);
    ReachSingle(u, [SelectUnionAll, Select]);
    ReachSingle(u, [SelectUnionAll, Select, t]);
    assert [SelectUnionAll, Select] == [SelectUnionAll] + [Select];
    assert [SelectUnionAll, Select, t] == [SelectUnionAll] + [Select, t];
    ScopeReachStep(SelectUnionAll, u.body, [Select]);
    ScopeReachStep(SelectUnionAll, u.body, [Select, t]);
    RowSelectsReach(i.source.rows, st, t);
  }

  /** INSERT .. SELECT renders its query as one whole SELECT inside the SELECT slot. */
  lemma InsertSelectRecorded(i: InsertQuery, st: Settings, t: Clause)
    requires i.source.FromSelect?
    ensures Occurrences(Recorded(InsertPart(i), st), [Insert, InsertValues]) == 0
    ensures Occurrences(Recorded(InsertPart(i), st), [Insert, InsertSelect]) == 1
    ensures Occurrences(Recorded(InsertPart(i), st), [Insert, InsertSelect, Select]) == 1
    ensures Occurrences(Recorded(InsertPart(i), st), [Insert, InsertSelect, Select, t]) ==
      if t in SelectSlots then 1 else 0
  {
    InsertSlotRecorded(i, st, InsertValues);
    InsertSlotRecorded(i, st, InsertSelect);
    var s := SelectScope(i.source.query, st);
    assert [Insert, InsertSelect, Select] == [Insert, InsertSlots(i, st.dialect)[1]] + [Select];
    assert [Insert, InsertSelect, Select, t] == [Insert, InsertSlots(i, st.dialect)[1]] + [Select, t];
    InsertSlotContent(i, st, 1, [Select]);
    InsertSlotContent(i, st, 1, [Select, t]);
    ReachSingle(s, [Select]);
    ReachSingle(s, [Select, t]);
    SelectSlotReach(i.source.query, st, t);
  }

  // Conditions

  /** A comparison records its operands: a FIELD per single operand, a FIELD_ROW per row value expression. */
  lemma ComparisonRecorded(op: Comparator, l: Operand, r: Operand, st: Settings)
    ensures Occurrences(Recorded(ConditionPart(Compare(op, l, r)), st), [Condition, ConditionComparison, Field]) ==
      (if l.Single? then 1 else 0) + (if r.Single? then 1 else 0)
    ensures Occurrences(Recorded(ConditionPart(Compare(op, l, r)), st), [Condition, ConditionComparison, FieldRow]) ==
      (if l.RowOf? then 1 else 0) + (if r.RowOf? then 1 else 0)
    ensures Occurrences(Recorded(ConditionPart(Compare(op, l, r)), st),
      [Condition, ConditionComparison, FieldRow, Field]) ==
      (if l.RowOf? then |l.fields| else 0) + (if r.RowOf? then |r.fields| else 0)
  {
    var part := ConditionPart(Compare(op, l, r));
    assert ConditionOperands(Compare(op, l, r), st) == [OperandScope(l, st), OperandScope(r, st)];
    assert PartScope(part, st) == ConditionScope(Compare(op, l, r), st);
    assert PartScope(part, st).body == [Scope(ConditionComparison, [OperandScope(l, st), OperandScope(r, st)])];
    var ops := [OperandScope(l, st), OperandScope(r, st)];
    OperandsBelow(part, st, ConditionComparison, ops, [Field]);
    OperandsBelow(part, st, ConditionComparison, ops, [FieldRow]);
    OperandsBelow(part, st, ConditionComparison, ops, [FieldRow, Field]);
    assert [Condition, ConditionComparison] + [Field] == [Condition, ConditionComparison, Field];
    assert [Condition, ConditionComparison] + [FieldRow] == [Condition, ConditionComparison, FieldRow];
    assert [Condition, ConditionComparison] + [FieldRow, Field] == [Condition, ConditionComparison, FieldRow, Field];
    ReachPair(ops[0], ops[1], [Field]);
    ReachPair(ops[0], ops[1], [FieldRow]);
    ReachPair(ops[0], ops[1], [FieldRow, Field]);
    OperandReach(l, st);
    OperandReach(r, st);
  }

  /**
   * IN and NOT IN record the tested operand, then every candidate, inside the
   * region of their kind: a FIELD per single operand, a FIELD_ROW holding its
   * fields per row value expression.
   */
  lemma InListRecorded(a: Operand, candidates: seq<Operand>, negated: bool, st: Settings)
    ensures var c := InList(a, candidates, negated);
      Occurrences(Recorded(ConditionPart(c), st), [Condition, ConditionTag(c), Field]) == SingleCount([a] + candidates)
    ensures var c := InList(a, candidates, negated);
      Occurrences(Recorded(ConditionPart(c), st), [Condition, ConditionTag(c), FieldRow]) == RowCount([a] + candidates)
    ensures var c := InList(a, candidates, negated);
      Occurrences(Recorded(ConditionPart(c), st), [Condition, ConditionTag(c), FieldRow, Field]) ==
        RowWidth([a] + candidates)
  {
    var c := InList(a, candidates, negated);
    var tag := ConditionTag(c);
    var part := ConditionPart(c);
    var os := [a] + candidates;
    assert os[0] == a && os[1..] == candidates;
    var ops := OperandScopes(os, st);
    assert ConditionOperands(c, st) == ops;
    assert PartScope(part, st) == ConditionScope(c, st);
    assert PartScope(part, st).body == [Scope(tag, ops)];
    OperandsBelow(part, st, tag, ops, [Field]);
    OperandsBelow(part, st, tag, ops, [FieldRow]);
    OperandsBelow(part, st, tag, ops, [FieldRow, Field]);
    assert [Condition, tag] + [Field] == [Condition, tag, Field];
    assert [Condition, tag] + [FieldRow] == [Condition, tag, FieldRow];
    assert [Condition, tag] + [FieldRow, Field] == [Condition, tag, FieldRow, Field];
    OperandsReach(os, st);
  }

  /** IS NULL and IS NOT NULL record their one operand inside the region of their kind. */
  lemma NullRecorded(a: Operand, negated: bool, st: Settings)
    ensures var c := if negated then IsNotNull(a) else IsNull(a);
      ConditionTag(c) == (if negated then ConditionIsNotNull else ConditionIsNull) &&
      Occurrences(Recorded(ConditionPart(c), st), [Condition, ConditionTag(c), Field]) == (if a.Single? then 1 else 0)
    ensures var c := if negated then IsNotNull(a) else IsNull(a);
      Occurrences(Recorded(ConditionPart(c), st), [Condition, ConditionTag(c), FieldRow]) == (if a.RowOf? then 1 else 0)
    ensures var c := if negated then IsNotNull(a) else IsNull(a);
      Occurrences(Recorded(ConditionPart(c), st), [Condition, ConditionTag(c), FieldRow, Field]) ==
        (if a.RowOf? then |a.fields| else 0)
  {
    var c := if negated then IsNotNull(a) else IsNull(a);
    var tag := ConditionTag(c);
    var part := ConditionPart(c);
    var ops := [OperandScope(a, st)];
    assert ConditionOperands(c, st) == ops;
    assert PartScope(part, st) == ConditionScope(c, st);
    assert PartScope(part, st).body == [Scope(tag, ops)];
    OperandsBelow(part, st, tag, ops, [Field]);
    OperandsBelow(part, st, tag, ops, [FieldRow]);
    OperandsBelow(part, st, tag, ops, [FieldRow, Field]);
    assert [Condition, tag] + [Field] == [Condition, tag, Field];
    assert [Condition, tag] + [FieldRow] == [Condition, tag, FieldRow];
    assert [Condition, tag] + [FieldRow, Field] == [Condition, tag, FieldRow, Field];
    ReachSingle(ops[0], [Field]);
    ReachSingle(ops[0], [FieldRow]);
    ReachSingle(ops[0], [FieldRow, Field]);
    OperandReach(a, st);
  }

  lemma ReachTriple(a: Scope, b: Scope, c: Scope, rel: seq<Clause>)
    requires rel != []
    ensures Reach([a, b, c], rel) == ScopeReach(a, rel) + ScopeReach(b, rel) + ScopeReach(c, rel)
  {
    ReachPair(b, c, rel);
    ReachCons(a, [b, c], rel);
    assert [a] + [b, c] == [a, b, c];
  }

  /**
   * BETWEEN records its three operands inside the region of its kind: a FIELD
   * per single operand, a FIELD_ROW per row value expression holding its fields.
   */
  lemma BetweenRecorded(a: Operand, low: Operand, high: Operand, negated: bool, symmetric: bool, st: Settings)
    ensures var c := Between(a, low, high, negated, symmetric);
      Occurrences(Recorded(ConditionPart(c), st), [Condition, ConditionTag(c), Field]) ==
        (if a.Single? then 1 else 0) + (if low.Single? then 1 else 0) + (if high.Single? then 1 else 0)
    ensures var c := Between(a, low, high, negated, symmetric);
      Occurrences(Recorded(ConditionPart(c), st), [Condition, ConditionTag(c), FieldRow]) ==
        (if a.RowOf? then 1 else 0) + (if low.RowOf? then 1 else 0) + (if high.RowOf? then 1 else 0)
    ensures var c := Between(a, low, high, negated, symmetric);
      Occurrences(Recorded(ConditionPart(c), st), [Condition, ConditionTag(c), FieldRow, Field]) ==
        (if a.RowOf? then |a.fields| else 0) + (if low.RowOf? then |low.fields| else 0) +
        (if high.RowOf? then |high.fields| else 0)
  {
    var c := Between(a, low, high, negated, symmetric);
    var tag := ConditionTag(c);
    var part := ConditionPart(c);
    var ops := [OperandScope(a, st), OperandScope(low, st), OperandScope(high, st)];
    assert ConditionOperands(c, st) == ops;
    assert PartScope(part, st) == ConditionScope(c, st);
    assert PartScope(part, st).body == [Scope(tag, ops)];
    OperandsBelow(part, st, tag, ops, [Field]);
    OperandsBelow(part, st, tag, ops, [FieldRow]);
    OperandsBelow(part, st, tag, ops, [FieldRow, Field]);
    assert [Condition, tag] + [Field] == [Condition, tag, Field];
    assert [Condition, tag] + [FieldRow] == [Condition, tag, FieldRow];
    assert [Condition, tag] + [FieldRow, Field] == [Condition, tag, FieldRow, Field];
    ReachTriple(ops[0], ops[1], ops[2], [Field]);
    ReachTriple(ops[0], ops[1], ops[2], [FieldRow]);
    ReachTriple(ops[0], ops[1], ops[2], [FieldRow, Field]);
    OperandReach(a, st);
    OperandReach(low, st);
    OperandReach(high, st);
  }

  /** Below a condition whose one region `tag` holds the operands `ops`. */
  lemma OperandsBelow(part: QueryPart, st: Settings, tag: Clause, ops: seq<Scope>, rel: seq<Clause>)
    requires rel != []
    requires PartScope(part, st) == Scope(Condition, [Scope(tag, ops)])
    ensures Occurrences(Recorded(part, st), [Condition, tag] + rel) == Reach(ops, rel)
  {
    assert [Condition, tag] + rel == [Condition] + ([tag] + rel);
    RecordedReach(part, st, Condition, [tag] + rel);
    ReachSingle(Scope(tag, ops), [tag] + rel);
    ScopeReachStep(tag, ops, rel);
  }
}
