# Clause events of jOOQ's visit listeners

jOOQ renders a query part (a table, a field, a condition, a SELECT, an
INSERT or an UPDATE) by walking it. At each clause region it opens and
closes, it calls `clauseStart` and `clauseEnd` on every visit listener. A
listener can ask the visit context for the open clause tags, outermost
first. The visit-context tests attach a recording listener that keeps a
copy of the open tags at every `clauseStart`. They render one query part per
test and compare the recorded lists with an expected list of lists (the
`assertEvents` helper).

This project models that protocol:

- **The clause tags** (`Clauses.Clause`): the 47 tags of jOOQ's clause
  enumeration that the tests observe.
- **The query parts** (`Ast`): named tables, aliases, VALUES table
  constructors, named fields, bind values, row value expressions, the
  comparison, null, IN, BETWEEN (plain, negated, symmetric), EXISTS, NOT,
  AND and OR conditions, SELECT, INSERT (rows or a SELECT, ON DUPLICATE KEY
  UPDATE, RETURNING) and UPDATE (SET, WHERE, RETURNING).
- **The dialects and render settings** (`Dialects`):
  - Postgres has multi-row VALUES, RETURNING, VALUES tables and BETWEEN
    SYMMETRIC, and needs no `dual`.
  - MySQL has multi-row VALUES and ON DUPLICATE KEY UPDATE.
  - The default dialect has none of them, and renders a SELECT without
    tables from `dual`. It emulates several INSERT rows as
    INSERT .. SELECT .. UNION ALL SELECT, as the Oracle comment in
    `test_INSERT_VALUES_multiple_emulated` describes.
  - The settings also hold the declare-tables and declare-fields modes.
- **The render plan** (`Plan`): the tree of clause regions each query part
  opens, resolved for one dialect and one pair of modes. An aliased table or
  field declares its alias in declare mode and is a bare reference
  otherwise. Every SELECT, INSERT and UPDATE opens all of its clause slots,
  empty or not.
- **The render context** (`Rendering.RenderContext`): a class holding the
  settings and the stack of open tags (`Paths.Path`). It pushes a tag and
  notifies its listener when a region opens, and notifies and pops when the
  region closes. `Render` first checks that the dialect can express every
  clause of the plan, then walks the plan.
- **The recorder** (`Listeners.SimpleListener`) and the test class
  (`VisitContextTest`): the fixture, `assertEvents`, and one method per
  test. Each test method is proved to end with a passing comparison.
  - Each test's expected lists are written as an event log (`Logs.Log`).
  - `Events` states, directly on the query part, the events each kind of part
    produces.
  - `Equivalence` proves these are the lists the dispatcher records walking
    the plan.

Properties proved for all query parts, not only the tested ones:

- **Shape** (`Properties`):
  - the recorded lists are well nested;
  - each list is recorded as often as the plan has regions along it;
  - the declare and reference modes give the lists of the alias tests;
  - NOT, AND, OR and EXISTS nest their operands as whole conditions, and a
    double negation is not collapsed.
- **Counts** (`Counts`, `Statements`):
  - every slot opens once whatever its content;
  - ON DUPLICATE KEY UPDATE is filled only in MySQL, RETURNING only in
    Postgres;
  - native multi-row VALUES gives one FIELD_ROW per row, while the emulation
    gives one SELECT per row with all eight SELECT slots;
  - row value expressions give FIELD_ROW regions holding their fields.
- **Renderability** (`Support`): a part renders exactly when every tag of
  its plan is expressible in the dialect.

## Model

| member | source | states |
|---|---|---|
| Listeners.SimpleListener.constructor | jOOQ/src/test/java/org/jooq/test/VisitContextTest.java:860 | a new recorder holds no lists |
| Listeners.SimpleListener.ClauseStart | jOOQ/src/test/java/org/jooq/test/VisitContextTest.java:862-865 | each clauseStart appends exactly one list, a copy of the open tags, and changes nothing else |
| Listeners.SimpleListener.ClauseEnd | jOOQ/src/test/java/org/jooq/test/VisitContextTest.java:867-868 | clauseEnd leaves the recorded lists unchanged |
| Listeners.SimpleListener.VisitStart | jOOQ/src/test/java/org/jooq/test/VisitContextTest.java:870-871 | visitStart leaves the recorded lists unchanged |
| Listeners.SimpleListener.VisitEnd | jOOQ/src/test/java/org/jooq/test/VisitContextTest.java:873-874 | visitEnd leaves the recorded lists unchanged |
| VisitContextTest.Setup | jOOQ/src/test/java/org/jooq/test/VisitContextTest.java:127-132 | every test starts from a fresh listener behind a fresh context in the default dialect, reference mode, nothing recorded |
| VisitContextTest.AssertEvents | jOOQ/src/test/java/org/jooq/test/VisitContextTest.java:846-855 | the verdict is Pass exactly when the expected and recorded lists are equal; a Mismatch names the first differing position with equal prefixes before it; a SizeMismatch means every common position agrees but the lengths differ |
| Rendering.RenderContext.constructor | jOOQ/src/test/java/org/jooq/test/VisitContextTest.java:129-131 | a context starts in the default dialect, in reference mode for tables and fields, with no region open, notifying the given listener |
| Rendering.RenderContext.SetDialect | jOOQ/src/test/java/org/jooq/test/VisitContextTest.java:144 | only the dialect changes |
| Rendering.RenderContext.DeclareTables | jOOQ/src/test/java/org/jooq/test/VisitContextTest.java:145 | only the table declaration mode changes |
| Rendering.RenderContext.DeclareFields | jOOQ/src/test/java/org/jooq/test/VisitContextTest.java:199 | only the field declaration mode changes |
| Rendering.RenderContext.Start | jOOQ/src/test/java/org/jooq/test/VisitContextTest.java:862-865 | opening a region pushes its tag and the listener records the new stack, outermost tag first |
| Rendering.RenderContext.End | jOOQ/src/test/java/org/jooq/test/VisitContextTest.java:867-868 | closing a region pops exactly its tag and records nothing |
| Rendering.RenderContext.VisitScope | jOOQ/src/test/java/org/jooq/test/VisitContextTest.java:862-865 | rendering one region records one list per region inside it, in render order, and returns the stack to where it was |
| Rendering.RenderContext.VisitForest | jOOQ/src/test/java/org/jooq/test/VisitContextTest.java:862-865 | rendering a sequence of regions records theirs one after the other and returns the stack to where it was |
| Rendering.RenderContext.Render | jOOQ/src/test/java/org/jooq/test/VisitContextTest.java:144-145 | a part renders exactly when every clause of its plan is expressible in the dialect; then the listener gains one list per region of the plan; otherwise nothing is recorded and the first clause the dialect cannot express is reported |
| Plan.FirstUnsupported | jOOQ/src/test/java/org/jooq/test/VisitContextTest.java:143-145 | None exactly when every tag is expressible; otherwise the first tag, in render order, that is not |
| Support.PartSupported | jOOQ/src/test/java/org/jooq/test/VisitContextTest.java:783-785 | a part is renderable exactly when every tag of its plan is expressible in the dialect (VALUES tables and BETWEEN SYMMETRIC only in Postgres) |
| Support.PartLogSupported | jOOQ/src/test/java/org/jooq/test/VisitContextTest.java:783-785 | the event log of a part has only expressible tags exactly when the part is renderable |
| Equivalence.PartEquivalence | jOOQ/src/test/java/org/jooq/test/VisitContextTest.java:140-844 | the clauseStart events stated per kind of query part are exactly the ones the dispatcher records walking the plan |
| Equivalence.Renders | jOOQ/src/test/java/org/jooq/test/VisitContextTest.java:846-855 | a part whose events are a given log records exactly the lists of that log |
| Properties.RecordedCount | jOOQ/src/test/java/org/jooq/test/VisitContextTest.java:858-876 | the number of recorded copies of a tag list equals the number of regions reached along that list in the plan, one clauseStart per region |
| Properties.RecordedWellNested | jOOQ/src/test/java/org/jooq/test/VisitContextTest.java:858-876 | the first list is the part's own tag; every list is non-empty; and every list without its last tag is a prefix of the one before, so each clauseStart opens exactly one region |
| Properties.TableAliasRecorded | jOOQ/src/test/java/org/jooq/test/VisitContextTest.java:165-185 | an aliased table records its alias declaration and then the aliased table in declare mode; in reference mode only TABLE and TABLE_REFERENCE |
| Properties.FieldAliasRecorded | jOOQ/src/test/java/org/jooq/test/VisitContextTest.java:187-207 | an aliased field records its alias declaration and then the aliased field in declare mode; in reference mode only FIELD and FIELD_REFERENCE |
| Properties.NotRecorded | jOOQ/src/test/java/org/jooq/test/VisitContextTest.java:588-602 | NOT records CONDITION, CONDITION_NOT, then its whole operand as a nested CONDITION under both |
| Properties.NotNotRecorded | jOOQ/src/test/java/org/jooq/test/VisitContextTest.java:588-602 | a double negation is not collapsed: four more lists than its operand, the fourth being CONDITION, NOT, CONDITION, NOT |
| Properties.AndRecorded | jOOQ/src/test/java/org/jooq/test/VisitContextTest.java:604-622 | AND records its left then its right operand, each as a whole nested CONDITION under CONDITION_AND |
| Properties.OrRecorded | jOOQ/src/test/java/org/jooq/test/VisitContextTest.java:624-642 | OR records its left then its right operand, each as a whole nested CONDITION under CONDITION_OR |
| Properties.ExistsRecorded | jOOQ/src/test/java/org/jooq/test/VisitContextTest.java:700-746 | EXISTS and NOT EXISTS record their subquery as a whole SELECT under the region of their kind |
| Counts.SelectSlotRecorded | jOOQ/src/test/java/org/jooq/test/VisitContextTest.java:700-722 | a SELECT records each of its eight slots exactly once, content or not, and no other region directly inside it |
| Counts.SelectFieldsRecorded | jOOQ/src/test/java/org/jooq/test/VisitContextTest.java:423-460 | a SELECT records one FIELD per selected field |
| Counts.SelectFromRecorded | jOOQ/src/test/java/org/jooq/test/VisitContextTest.java:702-704 | a SELECT records one TABLE per table, or without tables the one dual table in dialects other than Postgres, or none |
| Counts.SelectWhereRecorded | jOOQ/src/test/java/org/jooq/test/VisitContextTest.java:700-722 | a SELECT records a WHERE condition exactly when it has one |
| Counts.RowSelectsReach | jOOQ/src/test/java/org/jooq/test/VisitContextTest.java:364-421 | an emulated multi-row INSERT has one SELECT per row, each with all eight slots |
| Counts.OperandReach | jOOQ/src/test/java/org/jooq/test/VisitContextTest.java:818-844 | a single operand is one FIELD; a row value expression is one FIELD_ROW holding one FIELD per component |
| Statements.UpdateSlotRecorded | jOOQ/src/test/java/org/jooq/test/VisitContextTest.java:462-482 | an UPDATE records UPDATE, SET, WHERE and RETURNING exactly once each, even when empty, and nothing else directly inside it |
| Statements.UpdateTableRecorded | jOOQ/src/test/java/org/jooq/test/VisitContextTest.java:462-482 | an UPDATE records its one table |
| Statements.UpdateSetRecorded | jOOQ/src/test/java/org/jooq/test/VisitContextTest.java:484-510 | an UPDATE records one SET assignment per assignment |
| Statements.UpdateWhereRecorded | jOOQ/src/test/java/org/jooq/test/VisitContextTest.java:545-572 | an UPDATE records a WHERE condition exactly when it has one |
| Statements.UpdateReturningRecorded | jOOQ/src/test/java/org/jooq/test/VisitContextTest.java:462-482 | an UPDATE records RETURNING fields only in Postgres, one per field |
| Statements.UpdateAssignmentRowsRecorded | jOOQ/src/test/java/org/jooq/test/VisitContextTest.java:484-543 | for any number of SET assignments, the FIELD lists below them equal the single sides, the FIELD_ROW lists the row value expression sides, and the fields inside those rows their total width |
| Statements.InsertSlotRecorded | jOOQ/src/test/java/org/jooq/test/VisitContextTest.java:209-237 | an INSERT records INSERT INTO, ON DUPLICATE KEY UPDATE and RETURNING exactly once each in every dialect, and exactly one of VALUES and SELECT |
| Statements.InsertIntoRecorded | jOOQ/src/test/java/org/jooq/test/VisitContextTest.java:209-237 | INSERT INTO records the target table once and one FIELD per column |
| Statements.OnDuplicateKeyUpdateRecorded | jOOQ/src/test/java/org/jooq/test/VisitContextTest.java:277-321 | ON DUPLICATE KEY UPDATE records one assignment per requested assignment in MySQL and none elsewhere |
| Statements.OnDuplicateKeyUpdateContentRecorded | jOOQ/src/test/java/org/jooq/test/VisitContextTest.java:289-319 | in MySQL, counted over the targets and values of all ON DUPLICATE KEY UPDATE assignments: as many FIELD lists below the assignments as single sides, FIELD_ROW lists as row sides, and fields inside them as the rows' width; nothing elsewhere |
| Statements.AssignmentRecorded | jOOQ/src/test/java/org/jooq/test/VisitContextTest.java:309-318 | one assignment region records exactly its own tag, then every list of its target, then every list of its value, each nested under the tag |
| Statements.InsertReturningRecorded | jOOQ/src/test/java/org/jooq/test/VisitContextTest.java:239-275 | RETURNING records one FIELD per requested field in Postgres and none elsewhere |
| Statements.InsertValuesRecorded | jOOQ/src/test/java/org/jooq/test/VisitContextTest.java:323-362 | rows written natively record one VALUES region and no SELECT, with one FIELD_ROW per row |
| Statements.InsertEmulatedRecorded | jOOQ/src/test/java/org/jooq/test/VisitContextTest.java:364-421 | several rows in a dialect without multi-row VALUES record no VALUES region, one SELECT region, one UNION ALL, one SELECT per row, and each SELECT slot once per row |
| Statements.InsertSelectRecorded | jOOQ/src/test/java/org/jooq/test/VisitContextTest.java:423-460 | INSERT .. SELECT records no VALUES region and its query as one whole SELECT with all eight slots |
| Statements.ComparisonRecorded | jOOQ/src/test/java/org/jooq/test/VisitContextTest.java:574-586 | a comparison records a FIELD per single operand and a FIELD_ROW per row operand, holding its fields |
| Statements.BetweenRecorded | jOOQ/src/test/java/org/jooq/test/VisitContextTest.java:818-844 | BETWEEN in any of its four forms records a FIELD per single operand and a FIELD_ROW per row operand, holding its fields |
| Statements.InListRecorded | jOOQ/src/test/java/org/jooq/test/VisitContextTest.java:668-698 | IN and NOT IN record the tested operand and every candidate inside their own region: a FIELD per single operand, a FIELD_ROW per row, and the fields inside the rows |
| Statements.NullRecorded | jOOQ/src/test/java/org/jooq/test/VisitContextTest.java:644-666 | IS NULL and IS NOT NULL open their own tag and record their one operand as a FIELD, or as a FIELD_ROW holding its fields |
| Counts.OperandsReach | jOOQ/src/test/java/org/jooq/test/VisitContextTest.java:668-698 | a list of operands records one FIELD per single operand, one FIELD_ROW per row value expression, and one FIELD inside a row per component |
| Counts.AssignmentsBelow | jOOQ/src/test/java/org/jooq/test/VisitContextTest.java:289-319 | below the regions of a list of assignments, every path is reached as often as in the regions of the assignments' targets and values taken together |
| VisitContextTest.TableValuesRenders | jOOQ/src/test/java/org/jooq/test/VisitContextTest.java:140-163 | in the test's dialect and modes the part is renderable and its clauseStart events are exactly the expected lists of test_table_VALUES |
| VisitContextTest.TestTableValues | jOOQ/src/test/java/org/jooq/test/VisitContextTest.java:140-163 | rendering the part from the fixture makes the comparison with the expected lists of test_table_VALUES pass |
| VisitContextTest.TableAliasReferenceRenders | jOOQ/src/test/java/org/jooq/test/VisitContextTest.java:165-173 | in the test's dialect and modes the part is renderable and its clauseStart events are exactly the expected lists of test_tableAliasReference |
| VisitContextTest.TestTableAliasReference | jOOQ/src/test/java/org/jooq/test/VisitContextTest.java:165-173 | rendering the part from the fixture makes the comparison with the expected lists of test_tableAliasReference pass |
| VisitContextTest.TableAliasDeclarationRenders | jOOQ/src/test/java/org/jooq/test/VisitContextTest.java:175-185 | in the test's dialect and modes the part is renderable and its clauseStart events are exactly the expected lists of test_tableAliasDeclaration |
| VisitContextTest.TestTableAliasDeclaration | jOOQ/src/test/java/org/jooq/test/VisitContextTest.java:175-185 | rendering the part from the fixture makes the comparison with the expected lists of test_tableAliasDeclaration pass |
| VisitContextTest.FieldAliasReferenceRenders | jOOQ/src/test/java/org/jooq/test/VisitContextTest.java:187-195 | in the test's dialect and modes the part is renderable and its clauseStart events are exactly the expected lists of test_fieldAliasReference |
| VisitContextTest.TestFieldAliasReference | jOOQ/src/test/java/org/jooq/test/VisitContextTest.java:187-195 | rendering the part from the fixture makes the comparison with the expected lists of test_fieldAliasReference pass |
| VisitContextTest.FieldAliasDeclarationRenders | jOOQ/src/test/java/org/jooq/test/VisitContextTest.java:197-207 | in the test's dialect and modes the part is renderable and its clauseStart events are exactly the expected lists of test_fieldAliasDeclaration |
| VisitContextTest.TestFieldAliasDeclaration | jOOQ/src/test/java/org/jooq/test/VisitContextTest.java:197-207 | rendering the part from the fixture makes the comparison with the expected lists of test_fieldAliasDeclaration pass |
| VisitContextTest.InsertValuesSimpleRenders | jOOQ/src/test/java/org/jooq/test/VisitContextTest.java:209-237 | in the test's dialect and modes the part is renderable and its clauseStart events are exactly the expected lists of test_INSERT_VALUES_simple |
| VisitContextTest.TestInsertValuesSimple | jOOQ/src/test/java/org/jooq/test/VisitContextTest.java:209-237 | rendering the part from the fixture makes the comparison with the expected lists of test_INSERT_VALUES_simple pass |
| VisitContextTest.InsertValuesReturningRenders | jOOQ/src/test/java/org/jooq/test/VisitContextTest.java:239-275 | in the test's dialect and modes the part is renderable and its clauseStart events are exactly the expected lists of test_INSERT_VALUES_RETURNING |
| VisitContextTest.TestInsertValuesReturning | jOOQ/src/test/java/org/jooq/test/VisitContextTest.java:239-275 | rendering the part from the fixture makes the comparison with the expected lists of test_INSERT_VALUES_RETURNING pass |
| VisitContextTest.InsertValuesOnDuplicateKeyRenders | jOOQ/src/test/java/org/jooq/test/VisitContextTest.java:277-321 | in the test's dialect and modes the part is renderable and its clauseStart events are exactly the expected lists of test_INSERT_VALUES_ON_DUPLICATE_KEY |
| VisitContextTest.TestInsertValuesOnDuplicateKey | jOOQ/src/test/java/org/jooq/test/VisitContextTest.java:277-321 | rendering the part from the fixture makes the comparison with the expected lists of test_INSERT_VALUES_ON_DUPLICATE_KEY pass |
| VisitContextTest.InsertValuesMultipleRenders | jOOQ/src/test/java/org/jooq/test/VisitContextTest.java:323-362 | in the test's dialect and modes the part is renderable and its clauseStart events are exactly the expected lists of test_INSERT_VALUES_multiple |
| VisitContextTest.TestInsertValuesMultiple | jOOQ/src/test/java/org/jooq/test/VisitContextTest.java:323-362 | rendering the part from the fixture makes the comparison with the expected lists of test_INSERT_VALUES_multiple pass |
| VisitContextTest.InsertValuesMultipleEmulatedRenders | jOOQ/src/test/java/org/jooq/test/VisitContextTest.java:364-421 | in the test's dialect and modes the part is renderable and its clauseStart events are exactly the expected lists of test_INSERT_VALUES_multiple_emulated |
| VisitContextTest.TestInsertValuesMultipleEmulated | jOOQ/src/test/java/org/jooq/test/VisitContextTest.java:364-421 | rendering the part from the fixture makes the comparison with the expected lists of test_INSERT_VALUES_multiple_emulated pass |
| VisitContextTest.InsertSelectRenders | jOOQ/src/test/java/org/jooq/test/VisitContextTest.java:423-460 | in the test's dialect and modes the part is renderable and its clauseStart events are exactly the expected lists of test_INSERT_SELECT |
| VisitContextTest.TestInsertSelect | jOOQ/src/test/java/org/jooq/test/VisitContextTest.java:423-460 | rendering the part from the fixture makes the comparison with the expected lists of test_INSERT_SELECT pass |
| VisitContextTest.UpdateSetSimpleRenders | jOOQ/src/test/java/org/jooq/test/VisitContextTest.java:462-482 | in the test's dialect and modes the part is renderable and its clauseStart events are exactly the expected lists of test_UPDATE_SET_simple |
| VisitContextTest.TestUpdateSetSimple | jOOQ/src/test/java/org/jooq/test/VisitContextTest.java:462-482 | rendering the part from the fixture makes the comparison with the expected lists of test_UPDATE_SET_simple pass |
| VisitContextTest.UpdateSetTwoValuesRenders | jOOQ/src/test/java/org/jooq/test/VisitContextTest.java:484-510 | in the test's dialect and modes the part is renderable and its clauseStart events are exactly the expected lists of test_UPDATE_SET_twoValues |
| VisitContextTest.TestUpdateSetTwoValues | jOOQ/src/test/java/org/jooq/test/VisitContextTest.java:484-510 | rendering the part from the fixture makes the comparison with the expected lists of test_UPDATE_SET_twoValues pass |
| VisitContextTest.UpdateSetRowValueExpressionsRenders | jOOQ/src/test/java/org/jooq/test/VisitContextTest.java:512-543 | in the test's dialect and modes the part is renderable and its clauseStart events are exactly the expected lists of test_UPDATE_SET_rowValueExpressions |
| VisitContextTest.TestUpdateSetRowValueExpressions | jOOQ/src/test/java/org/jooq/test/VisitContextTest.java:512-543 | rendering the part from the fixture makes the comparison with the expected lists of test_UPDATE_SET_rowValueExpressions pass |
| VisitContextTest.UpdateSetWhereRenders | jOOQ/src/test/java/org/jooq/test/VisitContextTest.java:545-572 | in the test's dialect and modes the part is renderable and its clauseStart events are exactly the expected lists of test_UPDATE_SET_WHERE |
| VisitContextTest.TestUpdateSetWhere | jOOQ/src/test/java/org/jooq/test/VisitContextTest.java:545-572 | rendering the part from the fixture makes the comparison with the expected lists of test_UPDATE_SET_WHERE pass |
| VisitContextTest.ConditionSimpleRenders | jOOQ/src/test/java/org/jooq/test/VisitContextTest.java:574-586 | in the test's dialect and modes the part is renderable and its clauseStart events are exactly the expected lists of test_CONDITION_simple |
| VisitContextTest.TestConditionSimple | jOOQ/src/test/java/org/jooq/test/VisitContextTest.java:574-586 | rendering the part from the fixture makes the comparison with the expected lists of test_CONDITION_simple pass |
| VisitContextTest.ConditionNotRenders | jOOQ/src/test/java/org/jooq/test/VisitContextTest.java:588-602 | in the test's dialect and modes the part is renderable and its clauseStart events are exactly the expected lists of test_CONDITION_NOT |
| VisitContextTest.TestConditionNot | jOOQ/src/test/java/org/jooq/test/VisitContextTest.java:588-602 | rendering the part from the fixture makes the comparison with the expected lists of test_CONDITION_NOT pass |
| VisitContextTest.ConditionAndRenders | jOOQ/src/test/java/org/jooq/test/VisitContextTest.java:604-622 | in the test's dialect and modes the part is renderable and its clauseStart events are exactly the expected lists of test_CONDITION_AND |
| VisitContextTest.TestConditionAnd | jOOQ/src/test/java/org/jooq/test/VisitContextTest.java:604-622 | rendering the part from the fixture makes the comparison with the expected lists of test_CONDITION_AND pass |
| VisitContextTest.ConditionOrRenders | jOOQ/src/test/java/org/jooq/test/VisitContextTest.java:624-642 | in the test's dialect and modes the part is renderable and its clauseStart events are exactly the expected lists of test_CONDITION_OR |
| VisitContextTest.TestConditionOr | jOOQ/src/test/java/org/jooq/test/VisitContextTest.java:624-642 | rendering the part from the fixture makes the comparison with the expected lists of test_CONDITION_OR pass |
| VisitContextTest.ConditionNullRenders | jOOQ/src/test/java/org/jooq/test/VisitContextTest.java:644-654 | in the test's dialect and modes the part is renderable and its clauseStart events are exactly the expected lists of test_CONDITION_NULL |
| VisitContextTest.TestConditionNull | jOOQ/src/test/java/org/jooq/test/VisitContextTest.java:644-654 | rendering the part from the fixture makes the comparison with the expected lists of test_CONDITION_NULL pass |
| VisitContextTest.ConditionNotNullRenders | jOOQ/src/test/java/org/jooq/test/VisitContextTest.java:656-666 | in the test's dialect and modes the part is renderable and its clauseStart events are exactly the expected lists of test_CONDITION_NOT_NULL |
| VisitContextTest.TestConditionNotNull | jOOQ/src/test/java/org/jooq/test/VisitContextTest.java:656-666 | rendering the part from the fixture makes the comparison with the expected lists of test_CONDITION_NOT_NULL pass |
| VisitContextTest.ConditionInRenders | jOOQ/src/test/java/org/jooq/test/VisitContextTest.java:668-682 | in the test's dialect and modes the part is renderable and its clauseStart events are exactly the expected lists of test_CONDITION_IN |
| VisitContextTest.TestConditionIn | jOOQ/src/test/java/org/jooq/test/VisitContextTest.java:668-682 | rendering the part from the fixture makes the comparison with the expected lists of test_CONDITION_IN pass |
| VisitContextTest.ConditionNotInRenders | jOOQ/src/test/java/org/jooq/test/VisitContextTest.java:684-698 | in the test's dialect and modes the part is renderable and its clauseStart events are exactly the expected lists of test_CONDITION_NOT_IN |
| VisitContextTest.TestConditionNotIn | jOOQ/src/test/java/org/jooq/test/VisitContextTest.java:684-698 | rendering the part from the fixture makes the comparison with the expected lists of test_CONDITION_NOT_IN pass |
| VisitContextTest.ConditionExistsRenders | jOOQ/src/test/java/org/jooq/test/VisitContextTest.java:700-722 | in the test's dialect and modes the part is renderable and its clauseStart events are exactly the expected lists of test_CONDITION_EXISTS |
| VisitContextTest.TestConditionExists | jOOQ/src/test/java/org/jooq/test/VisitContextTest.java:700-722 | rendering the part from the fixture makes the comparison with the expected lists of test_CONDITION_EXISTS pass |
| VisitContextTest.ConditionNotExistsRenders | jOOQ/src/test/java/org/jooq/test/VisitContextTest.java:724-746 | in the test's dialect and modes the part is renderable and its clauseStart events are exactly the expected lists of test_CONDITION_NOT_EXISTS |
| VisitContextTest.TestConditionNotExists | jOOQ/src/test/java/org/jooq/test/VisitContextTest.java:724-746 | rendering the part from the fixture makes the comparison with the expected lists of test_CONDITION_NOT_EXISTS pass |
| VisitContextTest.ConditionBetweenRenders | jOOQ/src/test/java/org/jooq/test/VisitContextTest.java:748-762 | in the test's dialect and modes the part is renderable and its clauseStart events are exactly the expected lists of test_CONDITION_BETWEEN |
| VisitContextTest.TestConditionBetween | jOOQ/src/test/java/org/jooq/test/VisitContextTest.java:748-762 | rendering the part from the fixture makes the comparison with the expected lists of test_CONDITION_BETWEEN pass |
| VisitContextTest.ConditionNotBetweenRenders | jOOQ/src/test/java/org/jooq/test/VisitContextTest.java:764-778 | in the test's dialect and modes the part is renderable and its clauseStart events are exactly the expected lists of test_CONDITION_NOT_BETWEEN |
| VisitContextTest.TestConditionNotBetween | jOOQ/src/test/java/org/jooq/test/VisitContextTest.java:764-778 | rendering the part from the fixture makes the comparison with the expected lists of test_CONDITION_NOT_BETWEEN pass |
| VisitContextTest.ConditionBetweenSymmetricRenders | jOOQ/src/test/java/org/jooq/test/VisitContextTest.java:780-797 | in the test's dialect and modes the part is renderable and its clauseStart events are exactly the expected lists of test_CONDITION_BETWEEN_SYMMETRIC |
| VisitContextTest.TestConditionBetweenSymmetric | jOOQ/src/test/java/org/jooq/test/VisitContextTest.java:780-797 | rendering the part from the fixture makes the comparison with the expected lists of test_CONDITION_BETWEEN_SYMMETRIC pass |
| VisitContextTest.ConditionNotBetweenSymmetricRenders | jOOQ/src/test/java/org/jooq/test/VisitContextTest.java:799-816 | in the test's dialect and modes the part is renderable and its clauseStart events are exactly the expected lists of test_CONDITION_NOT_BETWEEN_SYMMETRIC |
| VisitContextTest.TestConditionNotBetweenSymmetric | jOOQ/src/test/java/org/jooq/test/VisitContextTest.java:799-816 | rendering the part from the fixture makes the comparison with the expected lists of test_CONDITION_NOT_BETWEEN_SYMMETRIC pass |
| VisitContextTest.ConditionNotBetweenSymmetricRowValueExpressionsRenders | jOOQ/src/test/java/org/jooq/test/VisitContextTest.java:818-844 | in the test's dialect and modes the part is renderable and its clauseStart events are exactly the expected lists of test_CONDITION_NOT_BETWEEN_SYMMETRIC_rowValueExpressions |
| VisitContextTest.TestConditionNotBetweenSymmetricRowValueExpressions | jOOQ/src/test/java/org/jooq/test/VisitContextTest.java:818-844 | rendering the part from the fixture makes the comparison with the expected lists of test_CONDITION_NOT_BETWEEN_SYMMETRIC_rowValueExpressions pass |

## Left out

- SQL text, bind values and JDBC execution: tests compare clause lists only, so rendering produces no text.
- The order of `clauseEnd`, `visitStart` and `visitEnd` relative to `clauseStart`. The recorder ignores all three. The model calls `clauseEnd` once per region and `visitStart`/`visitEnd` once around the part, and states nothing about their order.
- The jOOQ DSL builders, the configuration and listener-provider plumbing, and the JUnit lifecycle beyond the per-test setup (`@After` only clears references). Each test builds its query part as a value.
- The generated tables `TUnsigned` and `MLibrary`: unrelated to the clause protocol.
- The alias jOOQ gives a `values(..)` table constructor: the model writes that alias into the query part (`TableAs(ValuesTable(..), "v")`).
- START WITH, CONNECT BY, GROUP BY, HAVING and ORDER BY always open empty. No test gives them content, so the query parts cannot hold any.
- Dialect emulation of VALUES tables and of BETWEEN SYMMETRIC: no test renders them outside Postgres. `Render` reports them as clauses the dialect cannot express, before recording anything.
- Dialects other than Postgres, MySQL and the test fixture's default.
- The declaration modes inside statements: the plan never switches `declareTables` or `declareFields` on by itself. The FROM tables, the SELECT list, the INSERT INTO target and the UPDATE table all render with the caller's flags (`Plan.FromScopes`, `Plan.SelectScope`, `Plan.InsertScope`, `Plan.UpdateScope`). So an aliased table in a FROM, rendered in reference mode, records only TABLE and TABLE_REFERENCE. jOOQ itself may declare aliases there; no test renders an aliased table or field inside a statement, so the model does not decide it, and the alias lemmas (`Properties.TableAliasRecorded`, `Properties.FieldAliasRecorded`) speak only of the flags in force where the alias is rendered.
- Row arity checks: jOOQ fails a render whose row value expressions differ in degree (a comparison of a two-field row with a one-field row, an INSERT whose rows do not match its columns). The model does not check degrees: `Support.PartRenderable` accepts such parts and `Rendering.RenderContext.Render` records their events. With jOOQ's typed builder these parts cannot be built, and no test renders one.
- Conditions other than those the tests use (LIKE, quantified comparisons, IN with a subquery, ...).
