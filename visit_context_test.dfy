/**
 * The visit-context tests: each renders one query part with a fresh
 * recording listener and compares what the listener recorded with the
 * expected clause lists, position by position.
 */
module VisitContextTest {
  import opened Wrappers
  import opened Clauses
  import opened Paths
  import opened Dialects
  import opened Ast
  import opened Logs
  import opened Events
  import opened Equivalence
  import opened Listeners
  import opened Support
  import opened Rendering

  /** The schema table of the tests and its three columns. */
  function Table1(): TableExpr { NamedTable("TABLE1") }
  function FieldId1(): FieldExpr { NamedField("ID1") }
  function FieldName1(): FieldExpr { NamedField("NAME1") }
  function FieldDate1(): FieldExpr { NamedField("DATE1") }

  /** The state every test starts from: a fresh recording listener behind a default context. */
  predicate Fixture(ctx: RenderContext)
    reads ctx, ctx.listener
  {
    ctx.settings == Settings(Default, false, false) && ctx.path == Root && ctx.listener.clauses == []
  }

  /** The per-test setup: a new listener, and a context that notifies it. */
  method Setup() returns (ctx: RenderContext)
    ensures fresh(ctx) && fresh(ctx.listener)
    ensures Fixture(ctx)
  {
    var listener := new SimpleListener();
    ctx := new RenderContext(listener);
  }

  /** How a comparison of expected and recorded lists ends. */
  datatype Verdict = Pass | Mismatch(position: nat) | SizeMismatch

  /**
   * Compare the first min(|expected|, |recorded|) lists position by
   * position, stopping at the first difference, then the sizes.
   */
  method AssertEvents(listener: SimpleListener, expected: seq<seq<Clause>>) returns (v: Verdict)
    ensures v == Pass ==> expected == listener.clauses
    ensures expected == listener.clauses ==> v == Pass
    ensures v.Mismatch? ==>
      v.position < |expected| && v.position < |listener.clauses| &&
      expected[..v.position] == listener.clauses[..v.position] &&
      expected[v.position] != listener.clauses[v.position]
    ensures v == SizeMismatch ==>
      |expected| != |listener.clauses| &&
      forall i :: 0 <= i < |expected| && i < |listener.clauses| ==> expected[i] == listener.clauses[i]
  {
    var actual := listener.clauses;
    var i := 0;
    while i < |expected| && i < |actual|
      invariant 0 <= i <= |expected| && i <= |actual|
      invariant expected[..i] == actual[..i]
    {
      if expected[i] != actual[i] {
        return Mismatch(i);
      }
      assert expected[..i + 1] == expected[..i] + [expected[i]];
      assert actual[..i + 1] == actual[..i] + [actual[i]];
      i := i + 1;
    }
    if |expected| != |actual| {
      assert forall j :: 0 <= j < i ==> expected[j] == expected[..i][j] && actual[j] == actual[..i][j];
      return SizeMismatch;
    }
    assert expected == expected[..i] && actual == actual[..i];
    return Pass;
  }


  /** The query part test_table_VALUES renders. */
  function TableValuesPart(): QueryPart
  {
    TablePart(TableAs(ValuesTable([[Val(IntValue(1)), Val(StringValue("value"))], [Val(IntValue(2)), Val(StringValue("value"))]]), "v"))
  }

  /** The clause-start events test_table_VALUES pins, in order. */
  function TableValuesEvents(): Log
  {
    Empty
      .Then([Table])
      .Then([Table, TableAlias])
      .Then([Table, TableAlias, Table])
      .Then([Table, TableAlias, Table, TableValues])
      .Then([Table, TableAlias, Table, TableValues, FieldRow])
      .Then([Table, TableAlias, Table, TableValues, FieldRow, Field])
      .Then([Table, TableAlias, Table, TableValues, FieldRow, Field, FieldValue])
      .Then([Table, TableAlias, Table, TableValues, FieldRow, Field])
      .Then([Table, TableAlias, Table, TableValues, FieldRow, Field, FieldValue])
      .Then([Table, TableAlias, Table, TableValues, FieldRow])
      .Then([Table, TableAlias, Table, TableValues, FieldRow, Field])
      .Then([Table, TableAlias, Table, TableValues, FieldRow, Field, FieldValue])
      .Then([Table, TableAlias, Table, TableValues, FieldRow, Field])
      .Then([Table, TableAlias, Table, TableValues, FieldRow, Field, FieldValue])
  }

  /** In the dialect of the test the part renders, with exactly the listed events. */
  lemma TableValuesRenders()
    ensures PartRenderable(TableValuesPart(), Settings(Postgres, true, false))
    ensures PartLog(Empty, Root, TableValuesPart(), Settings(Postgres, true, false)) == TableValuesEvents()
  {
  }

  method TestTableValues(ctx: RenderContext) returns (v: Verdict)
    requires Fixture(ctx)
    modifies ctx, ctx.listener
    ensures v == Pass
  {
    ctx.SetDialect(Postgres);
    ctx.DeclareTables(true);
    var part := TableValuesPart();
    TableValuesRenders();
    Renders(part, ctx.settings, TableValuesEvents());
    var r := ctx.Render(part);
    v := AssertEvents(ctx.listener, Lists(Entries(TableValuesEvents())));
  }

  /** The query part test_tableAliasReference renders. */
  function TableAliasReferencePart(): QueryPart
  {
    TablePart(TableAs(Table1(), "x"))
  }

  /** The clause-start events test_tableAliasReference pins, in order. */
  function TableAliasReferenceEvents(): Log
  {
    Empty
      .Then([Table])
      .Then([Table, TableReference])
  }

  /** In the dialect of the test the part renders, with exactly the listed events. */
  lemma TableAliasReferenceRenders()
    ensures PartRenderable(TableAliasReferencePart(), Settings(Default, false, false))
    ensures PartLog(Empty, Root, TableAliasReferencePart(), Settings(Default, false, false)) == TableAliasReferenceEvents()
  {
  }

  method TestTableAliasReference(ctx: RenderContext) returns (v: Verdict)
    requires Fixture(ctx)
    modifies ctx, ctx.listener
    ensures v == Pass
  {
    var part := TableAliasReferencePart();
    TableAliasReferenceRenders();
    Renders(part, ctx.settings, TableAliasReferenceEvents());
    var r := ctx.Render(part);
    v := AssertEvents(ctx.listener, Lists(Entries(TableAliasReferenceEvents())));
  }

  /** The query part test_tableAliasDeclaration renders. */
  function TableAliasDeclarationPart(): QueryPart
  {
    TablePart(TableAs(Table1(), "x"))
  }

  /** The clause-start events test_tableAliasDeclaration pins, in order. */
  function TableAliasDeclarationEvents(): Log
  {
    Empty
      .Then([Table])
      .Then([Table, TableAlias])
      .Then([Table, TableAlias, Table])
      .Then([Table, TableAlias, Table, TableReference])
  }

  /** In the dialect of the test the part renders, with exactly the listed events. */
  lemma TableAliasDeclarationRenders()
    ensures PartRenderable(TableAliasDeclarationPart(), Settings(Default, true, false))
    ensures PartLog(Empty, Root, TableAliasDeclarationPart(), Settings(Default, true, false)) == TableAliasDeclarationEvents()
  {
  }

  method TestTableAliasDeclaration(ctx: RenderContext) returns (v: Verdict)
    requires Fixture(ctx)
    modifies ctx, ctx.listener
    ensures v == Pass
  {
    ctx.DeclareTables(true);
    var part := TableAliasDeclarationPart();
    TableAliasDeclarationRenders();
    Renders(part, ctx.settings, TableAliasDeclarationEvents());
    var r := ctx.Render(part);
    v := AssertEvents(ctx.listener, Lists(Entries(TableAliasDeclarationEvents())));
  }

  /** The query part test_fieldAliasReference renders. */
  function FieldAliasReferencePart(): QueryPart
  {
    FieldPart(FieldAs(FieldId1(), "x"))
  }

  /** The clause-start events test_fieldAliasReference pins, in order. */
  function FieldAliasReferenceEvents(): Log
  {
    Empty
      .Then([Field])
      .Then([Field, FieldReference])
  }

  /** In the dialect of the test the part renders, with exactly the listed events. */
  lemma FieldAliasReferenceRenders()
    ensures PartRenderable(FieldAliasReferencePart(), Settings(Default, false, false))
    ensures PartLog(Empty, Root, FieldAliasReferencePart(), Settings(Default, false, false)) == FieldAliasReferenceEvents()
  {
  }

  method TestFieldAliasReference(ctx: RenderContext) returns (v: Verdict)
    requires Fixture(ctx)
    modifies ctx, ctx.listener
    ensures v == Pass
  {
    var part := FieldAliasReferencePart();
    FieldAliasReferenceRenders();
    Renders(part, ctx.settings, FieldAliasReferenceEvents());
    var r := ctx.Render(part);
    v := AssertEvents(ctx.listener, Lists(Entries(FieldAliasReferenceEvents())));
  }

  /** The query part test_fieldAliasDeclaration renders. */
  function FieldAliasDeclarationPart(): QueryPart
  {
    FieldPart(FieldAs(FieldId1(), "x"))
  }

  /** The clause-start events test_fieldAliasDeclaration pins, in order. */
  function FieldAliasDeclarationEvents(): Log
  {
    Empty
      .Then([Field])
      .Then([Field, FieldAlias])
      .Then([Field, FieldAlias, Field])
      .Then([Field, FieldAlias, Field, FieldReference])
  }

  /** In the dialect of the test the part renders, with exactly the listed events. */
  lemma FieldAliasDeclarationRenders()
    ensures PartRenderable(FieldAliasDeclarationPart(), Settings(Default, false, true))
    ensures PartLog(Empty, Root, FieldAliasDeclarationPart(), Settings(Default, false, true)) == FieldAliasDeclarationEvents()
  {
  }

  method TestFieldAliasDeclaration(ctx: RenderContext) returns (v: Verdict)
    requires Fixture(ctx)
    modifies ctx, ctx.listener
    ensures v == Pass
  {
    ctx.DeclareFields(true);
    var part := FieldAliasDeclarationPart();
    FieldAliasDeclarationRenders();
    Renders(part, ctx.settings, FieldAliasDeclarationEvents());
    var r := ctx.Render(part);
    v := AssertEvents(ctx.listener, Lists(Entries(FieldAliasDeclarationEvents())));
  }

  /** The query part test_INSERT_VALUES_simple renders. */
  function InsertValuesSimplePart(): QueryPart
  {
    InsertPart(InsertQuery(Table1(), [FieldId1(), FieldName1(), FieldDate1()], Rows([[Val(IntValue(1)), Val(StringValue("value")), Val(NullValue)]]), [], []))
  }

  /** The clause-start events test_INSERT_VALUES_simple pins, in order. */
  function InsertValuesSimpleEvents(): Log
  {
    Empty
      .Then([Insert])
      .Then([Insert, InsertInsertInto])
      .Then([Insert, InsertInsertInto, Table])
      .Then([Insert, InsertInsertInto, Table, TableReference])
      .Then([Insert, InsertInsertInto, Field])
      .Then([Insert, InsertInsertInto, Field, FieldReference])
      .Then([Insert, InsertInsertInto, Field])
      .Then([Insert, InsertInsertInto, Field, FieldReference])
      .Then([Insert, InsertInsertInto, Field])
      .Then([Insert, InsertInsertInto, Field, FieldReference])
      .Then([Insert, InsertValues])
      .Then([Insert, InsertValues, FieldRow])
      .Then([Insert, InsertValues, FieldRow, Field])
      .Then([Insert, InsertValues, FieldRow, Field, FieldValue])
      .Then([Insert, InsertValues, FieldRow, Field])
      .Then([Insert, InsertValues, FieldRow, Field, FieldValue])
      .Then([Insert, InsertValues, FieldRow, Field])
      .Then([Insert, InsertValues, FieldRow, Field, FieldValue])
      .Then([Insert, InsertOnDuplicateKeyUpdate])
      .Then([Insert, InsertReturning])
  }

  /** In the dialect of the test the part renders, with exactly the listed events. */
  lemma InsertValuesSimpleRenders()
    ensures PartRenderable(InsertValuesSimplePart(), Settings(Default, false, false))
    ensures PartLog(Empty, Root, InsertValuesSimplePart(), Settings(Default, false, false)) == InsertValuesSimpleEvents()
  {
  }

  method TestInsertValuesSimple(ctx: RenderContext) returns (v: Verdict)
    requires Fixture(ctx)
    modifies ctx, ctx.listener
    ensures v == Pass
  {
    var part := InsertValuesSimplePart();
    InsertValuesSimpleRenders();
    Renders(part, ctx.settings, InsertValuesSimpleEvents());
    var r := ctx.Render(part);
    v := AssertEvents(ctx.listener, Lists(Entries(InsertValuesSimpleEvents())));
  }

  /** The query part test_INSERT_VALUES_RETURNING renders. */
  function InsertValuesReturningPart(): QueryPart
  {
    InsertPart(InsertQuery(Table1(), [FieldId1(), FieldName1(), FieldDate1()], Rows([[Val(IntValue(1)), Val(StringValue("value")), Val(NullValue)]]), [], [FieldId1(), FieldName1()]))
  }

  /** The clause-start events test_INSERT_VALUES_RETURNING pins, in order. */
  function InsertValuesReturningEvents(): Log
  {
    Empty
      .Then([Insert])
      .Then([Insert, InsertInsertInto])
      .Then([Insert, InsertInsertInto, Table])
      .Then([Insert, InsertInsertInto, Table, TableReference])
      .Then([Insert, InsertInsertInto, Field])
      .Then([Insert, InsertInsertInto, Field, FieldReference])
      .Then([Insert, InsertInsertInto, Field])
      .Then([Insert, InsertInsertInto, Field, FieldReference])
      .Then([Insert, InsertInsertInto, Field])
      .Then([Insert, InsertInsertInto, Field, FieldReference])
      .Then([Insert, InsertValues])
      .Then([Insert, InsertValues, FieldRow])
      .Then([Insert, InsertValues, FieldRow, Field])
      .Then([Insert, InsertValues, FieldRow, Field, FieldValue])
      .Then([Insert, InsertValues, FieldRow, Field])
      .Then([Insert, InsertValues, FieldRow, Field, FieldValue])
      .Then([Insert, InsertValues, FieldRow, Field])
      .Then([Insert, InsertValues, FieldRow, Field, FieldValue])
      .Then([Insert, InsertOnDuplicateKeyUpdate])
      .Then([Insert, InsertReturning])
      .Then([Insert, InsertReturning, Field])
      .Then([Insert, InsertReturning, Field, FieldReference])
      .Then([Insert, InsertReturning, Field])
      .Then([Insert, InsertReturning, Field, FieldReference])
  }

  /** In the dialect of the test the part renders, with exactly the listed events. */
  lemma InsertValuesReturningRenders()
    ensures PartRenderable(InsertValuesReturningPart(), Settings(Postgres, false, false))
    ensures PartLog(Empty, Root, InsertValuesReturningPart(), Settings(Postgres, false, false)) == InsertValuesReturningEvents()
  {
  }

  method TestInsertValuesReturning(ctx: RenderContext) returns (v: Verdict)
    requires Fixture(ctx)
    modifies ctx, ctx.listener
    ensures v == Pass
  {
    ctx.SetDialect(Postgres);
    var part := InsertValuesReturningPart();
    InsertValuesReturningRenders();
    Renders(part, ctx.settings, InsertValuesReturningEvents());
    var r := ctx.Render(part);
    v := AssertEvents(ctx.listener, Lists(Entries(InsertValuesReturningEvents())));
  }

  /** The query part test_INSERT_VALUES_ON_DUPLICATE_KEY renders. */
  function InsertValuesOnDuplicateKeyPart(): QueryPart
  {
    InsertPart(InsertQuery(Table1(), [FieldId1(), FieldName1(), FieldDate1()], Rows([[Val(IntValue(1)), Val(StringValue("value")), Val(NullValue)]]), [Assignment(Single(FieldName1()), Single(Val(StringValue("value")))), Assignment(Single(FieldDate1()), Single(FieldDate1()))], []))
  }

  /** The clause-start events test_INSERT_VALUES_ON_DUPLICATE_KEY pins, in order. */
  function InsertValuesOnDuplicateKeyEvents(): Log
  {
    Empty
      .Then([Insert])
      .Then([Insert, InsertInsertInto])
      .Then([Insert, InsertInsertInto, Table])
      .Then([Insert, InsertInsertInto, Table, TableReference])
      .Then([Insert, InsertInsertInto, Field])
      .Then([Insert, InsertInsertInto, Field, FieldReference])
      .Then([Insert, InsertInsertInto, Field])
      .Then([Insert, InsertInsertInto, Field, FieldReference])
      .Then([Insert, InsertInsertInto, Field])
      .Then([Insert, InsertInsertInto, Field, FieldReference])
      .Then([Insert, InsertValues])
      .Then([Insert, InsertValues, FieldRow])
      .Then([Insert, InsertValues, FieldRow, Field])
      .Then([Insert, InsertValues, FieldRow, Field, FieldValue])
      .Then([Insert, InsertValues, FieldRow, Field])
      .Then([Insert, InsertValues, FieldRow, Field, FieldValue])
      .Then([Insert, InsertValues, FieldRow, Field])
      .Then([Insert, InsertValues, FieldRow, Field, FieldValue])
      .Then([Insert, InsertOnDuplicateKeyUpdate])
      .Then([Insert, InsertOnDuplicateKeyUpdate, InsertOnDuplicateKeyUpdateAssignment])
      .Then([Insert, InsertOnDuplicateKeyUpdate, InsertOnDuplicateKeyUpdateAssignment, Field])
      .Then([Insert, InsertOnDuplicateKeyUpdate, InsertOnDuplicateKeyUpdateAssignment, Field, FieldReference])
      .Then([Insert, InsertOnDuplicateKeyUpdate, InsertOnDuplicateKeyUpdateAssignment, Field])
      .Then([Insert, InsertOnDuplicateKeyUpdate, InsertOnDuplicateKeyUpdateAssignment, Field, FieldValue])
      .Then([Insert, InsertOnDuplicateKeyUpdate, InsertOnDuplicateKeyUpdateAssignment])
      .Then([Insert, InsertOnDuplicateKeyUpdate, InsertOnDuplicateKeyUpdateAssignment, Field])
      .Then([Insert, InsertOnDuplicateKeyUpdate, InsertOnDuplicateKeyUpdateAssignment, Field, FieldReference])
      .Then([Insert, InsertOnDuplicateKeyUpdate, InsertOnDuplicateKeyUpdateAssignment, Field])
      .Then([Insert, InsertOnDuplicateKeyUpdate, InsertOnDuplicateKeyUpdateAssignment, Field, FieldReference])
      .Then([Insert, InsertReturning])
  }

  /** In the dialect of the test the part renders, with exactly the listed events. */
  lemma InsertValuesOnDuplicateKeyRenders()
    ensures PartRenderable(InsertValuesOnDuplicateKeyPart(), Settings(MySql, false, false))
    ensures PartLog(Empty, Root, InsertValuesOnDuplicateKeyPart(), Settings(MySql, false, false)) == InsertValuesOnDuplicateKeyEvents()
  {
  }

  method TestInsertValuesOnDuplicateKey(ctx: RenderContext) returns (v: Verdict)
    requires Fixture(ctx)
    modifies ctx, ctx.listener
    ensures v == Pass
  {
    ctx.SetDialect(MySql);
    var part := InsertValuesOnDuplicateKeyPart();
    InsertValuesOnDuplicateKeyRenders();
    Renders(part, ctx.settings, InsertValuesOnDuplicateKeyEvents());
    var r := ctx.Render(part);
    v := AssertEvents(ctx.listener, Lists(Entries(InsertValuesOnDuplicateKeyEvents())));
  }

  /** The query part test_INSERT_VALUES_multiple renders. */
  function InsertValuesMultiplePart(): QueryPart
  {
    InsertPart(InsertQuery(Table1(), [FieldId1(), FieldName1(), FieldDate1()], Rows([[Val(IntValue(1)), Val(StringValue("value")), Val(NullValue)], [Val(IntValue(2)), Val(StringValue("value")), Val(NullValue)]]), [], []))
  }

  /** The clause-start events test_INSERT_VALUES_multiple pins, in order. */
  function InsertValuesMultipleEvents(): Log
  {
    Empty
      .Then([Insert])
      .Then([Insert, InsertInsertInto])
      .Then([Insert, InsertInsertInto, Table])
      .Then([Insert, InsertInsertInto, Table, TableReference])
      .Then([Insert, InsertInsertInto, Field])
      .Then([Insert, InsertInsertInto, Field, FieldReference])
      .Then([Insert, InsertInsertInto, Field])
      .Then([Insert, InsertInsertInto, Field, FieldReference])
      .Then([Insert, InsertInsertInto, Field])
      .Then([Insert, InsertInsertInto, Field, FieldReference])
      .Then([Insert, InsertValues])
      .Then([Insert, InsertValues, FieldRow])
      .Then([Insert, InsertValues, FieldRow, Field])
      .Then([Insert, InsertValues, FieldRow, Field, FieldValue])
      .Then([Insert, InsertValues, FieldRow, Field])
      .Then([Insert, InsertValues, FieldRow, Field, FieldValue])
      .Then([Insert, InsertValues, FieldRow, Field])
      .Then([Insert, InsertValues, FieldRow, Field, FieldValue])
      .Then([Insert, InsertValues, FieldRow])
      .Then([Insert, InsertValues, FieldRow, Field])
      .Then([Insert, InsertValues, FieldRow, Field, FieldValue])
      .Then([Insert, InsertValues, FieldRow, Field])
      .Then([Insert, InsertValues, FieldRow, Field, FieldValue])
      .Then([Insert, InsertValues, FieldRow, Field])
      .Then([Insert, InsertValues, FieldRow, Field, FieldValue])
      .Then([Insert, InsertOnDuplicateKeyUpdate])
      .Then([Insert, InsertReturning])
  }

  /** In the dialect of the test the part renders, with exactly the listed events. */
  lemma InsertValuesMultipleRenders()
    ensures PartRenderable(InsertValuesMultiplePart(), Settings(Postgres, false, false))
    ensures PartLog(Empty, Root, InsertValuesMultiplePart(), Settings(Postgres, false, false)) == InsertValuesMultipleEvents()
  {
  }

  method TestInsertValuesMultiple(ctx: RenderContext) returns (v: Verdict)
    requires Fixture(ctx)
    modifies ctx, ctx.listener
    ensures v == Pass
  {
    ctx.SetDialect(Postgres);
    var part := InsertValuesMultiplePart();
    InsertValuesMultipleRenders();
    Renders(part, ctx.settings, InsertValuesMultipleEvents());
    var r := ctx.Render(part);
    v := AssertEvents(ctx.listener, Lists(Entries(InsertValuesMultipleEvents())));
  }

  /** The query part test_INSERT_VALUES_multiple_emulated renders. */
  function InsertValuesMultipleEmulatedPart(): QueryPart
  {
    InsertPart(InsertQuery(Table1(), [FieldId1(), FieldName1(), FieldDate1()], Rows([[Val(IntValue(1)), Val(StringValue("value")), Val(NullValue)], [Val(IntValue(2)), Val(StringValue("value")), Val(NullValue)]]), [], []))
  }

  /** The clause-start events test_INSERT_VALUES_multiple_emulated pins, in order. */
  function InsertValuesMultipleEmulatedEvents(): Log
  {
    Empty
      .Then([Insert])
      .Then([Insert, InsertInsertInto])
      .Then([Insert, InsertInsertInto, Table])
      .Then([Insert, InsertInsertInto, Table, TableReference])
      .Then([Insert, InsertInsertInto, Field])
      .Then([Insert, InsertInsertInto, Field, FieldReference])
      .Then([Insert, InsertInsertInto, Field])
      .Then([Insert, InsertInsertInto, Field, FieldReference])
      .Then([Insert, InsertInsertInto, Field])
      .Then([Insert, InsertInsertInto, Field, FieldReference])
      .Then([Insert, InsertSelect])
      .Then([Insert, InsertSelect, SelectUnionAll])
      .Then([Insert, InsertSelect, SelectUnionAll, Select])
      .Then([Insert, InsertSelect, SelectUnionAll, Select, SelectSelect])
      .Then([Insert, InsertSelect, SelectUnionAll, Select, SelectSelect, Field])
      .Then([Insert, InsertSelect, SelectUnionAll, Select, SelectSelect, Field, FieldValue])
      .Then([Insert, InsertSelect, SelectUnionAll, Select, SelectSelect, Field])
      .Then([Insert, InsertSelect, SelectUnionAll, Select, SelectSelect, Field, FieldValue])
      .Then([Insert, InsertSelect, SelectUnionAll, Select, SelectSelect, Field])
      .Then([Insert, InsertSelect, SelectUnionAll, Select, SelectSelect, Field, FieldValue])
      .Then([Insert, InsertSelect, SelectUnionAll, Select, SelectFrom])
      .Then([Insert, InsertSelect, SelectUnionAll, Select, SelectFrom, Table])
      .Then([Insert, InsertSelect, SelectUnionAll, Select, SelectWhere])
      .Then([Insert, InsertSelect, SelectUnionAll, Select, SelectStartWith])
      .Then([Insert, InsertSelect, SelectUnionAll, Select, SelectConnectBy])
      .Then([Insert, InsertSelect, SelectUnionAll, Select, SelectGroupBy])
      .Then([Insert, InsertSelect, SelectUnionAll, Select, SelectHaving])
      .Then([Insert, InsertSelect, SelectUnionAll, Select, SelectOrderBy])
      .Then([Insert, InsertSelect, SelectUnionAll, Select])
      .Then([Insert, InsertSelect, SelectUnionAll, Select, SelectSelect])
      .Then([Insert, InsertSelect, SelectUnionAll, Select, SelectSelect, Field])
      .Then([Insert, InsertSelect, SelectUnionAll, Select, SelectSelect, Field, FieldValue])
      .Then([Insert, InsertSelect, SelectUnionAll, Select, SelectSelect, Field])
      .Then([Insert, InsertSelect, SelectUnionAll, Select, SelectSelect, Field, FieldValue])
      .Then([Insert, InsertSelect, SelectUnionAll, Select, SelectSelect, Field])
      .Then([Insert, InsertSelect, SelectUnionAll, Select, SelectSelect, Field, FieldValue])
      .Then([Insert, InsertSelect, SelectUnionAll, Select, SelectFrom])
      .Then([Insert, InsertSelect, SelectUnionAll, Select, SelectFrom, Table])
      .Then([Insert, InsertSelect, SelectUnionAll, Select, SelectWhere])
      .Then([Insert, InsertSelect, SelectUnionAll, Select, SelectStartWith])
      .Then([Insert, InsertSelect, SelectUnionAll, Select, SelectConnectBy])
      .Then([Insert, InsertSelect, SelectUnionAll, Select, SelectGroupBy])
      .Then([Insert, InsertSelect, SelectUnionAll, Select, SelectHaving])
      .Then([Insert, InsertSelect, SelectUnionAll, Select, SelectOrderBy])
      .Then([Insert, InsertOnDuplicateKeyUpdate])
      .Then([Insert, InsertReturning])
  }

  /** In the dialect of the test the part renders, with exactly the listed events. */
  lemma InsertValuesMultipleEmulatedRenders()
    ensures PartRenderable(InsertValuesMultipleEmulatedPart(), Settings(Default, false, false))
    ensures PartLog(Empty, Root, InsertValuesMultipleEmulatedPart(), Settings(Default, false, false)) == InsertValuesMultipleEmulatedEvents()
  {
  }

  method TestInsertValuesMultipleEmulated(ctx: RenderContext) returns (v: Verdict)
    requires Fixture(ctx)
    modifies ctx, ctx.listener
    ensures v == Pass
  {
    var part := InsertValuesMultipleEmulatedPart();
    InsertValuesMultipleEmulatedRenders();
    Renders(part, ctx.settings, InsertValuesMultipleEmulatedEvents());
    var r := ctx.Render(part);
    v := AssertEvents(ctx.listener, Lists(Entries(InsertValuesMultipleEmulatedEvents())));
  }

  /** The query part test_INSERT_SELECT renders. */
  function InsertSelectPart(): QueryPart
  {
    InsertPart(InsertQuery(Table1(), [FieldId1(), FieldName1(), FieldDate1()], FromSelect(SelectQuery([Val(IntValue(1)), Val(StringValue("value")), Val(NullValue)], [], None)), [], []))
  }

  /** The clause-start events test_INSERT_SELECT pins, in order. */
  function InsertSelectEvents(): Log
  {
    Empty
      .Then([Insert])
      .Then([Insert, InsertInsertInto])
      .Then([Insert, InsertInsertInto, Table])
      .Then([Insert, InsertInsertInto, Table, TableReference])
      .Then([Insert, InsertInsertInto, Field])
      .Then([Insert, InsertInsertInto, Field, FieldReference])
      .Then([Insert, InsertInsertInto, Field])
      .Then([Insert, InsertInsertInto, Field, FieldReference])
      .Then([Insert, InsertInsertInto, Field])
      .Then([Insert, InsertInsertInto, Field, FieldReference])
      .Then([Insert, InsertSelect])
      .Then([Insert, InsertSelect, Select])
      .Then([Insert, InsertSelect, Select, SelectSelect])
      .Then([Insert, InsertSelect, Select, SelectSelect, Field])
      .Then([Insert, InsertSelect, Select, SelectSelect, Field, FieldValue])
      .Then([Insert, InsertSelect, Select, SelectSelect, Field])
      .Then([Insert, InsertSelect, Select, SelectSelect, Field, FieldValue])
      .Then([Insert, InsertSelect, Select, SelectSelect, Field])
      .Then([Insert, InsertSelect, Select, SelectSelect, Field, FieldValue])
      .Then([Insert, InsertSelect, Select, SelectFrom])
      .Then([Insert, InsertSelect, Select, SelectFrom, Table])
      .Then([Insert, InsertSelect, Select, SelectWhere])
      .Then([Insert, InsertSelect, Select, SelectStartWith])
      .Then([Insert, InsertSelect, Select, SelectConnectBy])
      .Then([Insert, InsertSelect, Select, SelectGroupBy])
      .Then([Insert, InsertSelect, Select, SelectHaving])
      .Then([Insert, InsertSelect, Select, SelectOrderBy])
      .Then([Insert, InsertOnDuplicateKeyUpdate])
      .Then([Insert, InsertReturning])
  }

  /** In the dialect of the test the part renders, with exactly the listed events. */
  lemma InsertSelectRenders()
    ensures PartRenderable(InsertSelectPart(), Settings(Default, false, false))
    ensures PartLog(Empty, Root, InsertSelectPart(), Settings(Default, false, false)) == InsertSelectEvents()
  {
  }

  method TestInsertSelect(ctx: RenderContext) returns (v: Verdict)
    requires Fixture(ctx)
    modifies ctx, ctx.listener
    ensures v == Pass
  {
    var part := InsertSelectPart();
    InsertSelectRenders();
    Renders(part, ctx.settings, InsertSelectEvents());
    var r := ctx.Render(part);
    v := AssertEvents(ctx.listener, Lists(Entries(InsertSelectEvents())));
  }

  /** The query part test_UPDATE_SET_simple renders. */
  function UpdateSetSimplePart(): QueryPart
  {
    UpdatePart(UpdateQuery(Table1(), [Assignment(Single(FieldName1()), Single(Val(StringValue("value"))))], None, []))
  }

  /** The clause-start events test_UPDATE_SET_simple pins, in order. */
  function UpdateSetSimpleEvents(): Log
  {
    Empty
      .Then([Update])
      .Then([Update, UpdateUpdate])
      .Then([Update, UpdateUpdate, Table])
      .Then([Update, UpdateUpdate, Table, TableReference])
      .Then([Update, UpdateSet])
      .Then([Update, UpdateSet, UpdateSetAssignment])
      .Then([Update, UpdateSet, UpdateSetAssignment, Field])
      .Then([Update, UpdateSet, UpdateSetAssignment, Field, FieldReference])
      .Then([Update, UpdateSet, UpdateSetAssignment, Field])
      .Then([Update, UpdateSet, UpdateSetAssignment, Field, FieldValue])
      .Then([Update, UpdateWhere])
      .Then([Update, UpdateReturning])
  }

  /** In the dialect of the test the part renders, with exactly the listed events. */
  lemma UpdateSetSimpleRenders()
    ensures PartRenderable(UpdateSetSimplePart(), Settings(Default, false, false))
    ensures PartLog(Empty, Root, UpdateSetSimplePart(), Settings(Default, false, false)) == UpdateSetSimpleEvents()
  {
  }

  method TestUpdateSetSimple(ctx: RenderContext) returns (v: Verdict)
    requires Fixture(ctx)
    modifies ctx, ctx.listener
    ensures v == Pass
  {
    var part := UpdateSetSimplePart();
    UpdateSetSimpleRenders();
    Renders(part, ctx.settings, UpdateSetSimpleEvents());
    var r := ctx.Render(part);
    v := AssertEvents(ctx.listener, Lists(Entries(UpdateSetSimpleEvents())));
  }

  /** The query part test_UPDATE_SET_twoValues renders. */
  function UpdateSetTwoValuesPart(): QueryPart
  {
    UpdatePart(UpdateQuery(Table1(), [Assignment(Single(FieldName1()), Single(Val(StringValue("value")))), Assignment(Single(FieldDate1()), Single(FieldDate1()))], None, []))
  }

  /** The clause-start events test_UPDATE_SET_twoValues pins, in order. */
  function UpdateSetTwoValuesEvents(): Log
  {
    Empty
      .Then([Update])
      .Then([Update, UpdateUpdate])
      .Then([Update, UpdateUpdate, Table])
      .Then([Update, UpdateUpdate, Table, TableReference])
      .Then([Update, UpdateSet])
      .Then([Update, UpdateSet, UpdateSetAssignment])
      .Then([Update, UpdateSet, UpdateSetAssignment, Field])
      .Then([Update, UpdateSet, UpdateSetAssignment, Field, FieldReference])
      .Then([Update, UpdateSet, UpdateSetAssignment, Field])
      .Then([Update, UpdateSet, UpdateSetAssignment, Field, FieldValue])
      .Then([Update, UpdateSet, UpdateSetAssignment])
      .Then([Update, UpdateSet, UpdateSetAssignment, Field])
      .Then([Update, UpdateSet, UpdateSetAssignment, Field, FieldReference])
      .Then([Update, UpdateSet, UpdateSetAssignment, Field])
      .Then([Update, UpdateSet, UpdateSetAssignment, Field, FieldReference])
      .Then([Update, UpdateWhere])
      .Then([Update, UpdateReturning])
  }

  /** In the dialect of the test the part renders, with exactly the listed events. */
  lemma UpdateSetTwoValuesRenders()
    ensures PartRenderable(UpdateSetTwoValuesPart(), Settings(Default, false, false))
    ensures PartLog(Empty, Root, UpdateSetTwoValuesPart(), Settings(Default, false, false)) == UpdateSetTwoValuesEvents()
  {
  }

  method TestUpdateSetTwoValues(ctx: RenderContext) returns (v: Verdict)
    requires Fixture(ctx)
    modifies ctx, ctx.listener
    ensures v == Pass
  {
    var part := UpdateSetTwoValuesPart();
    UpdateSetTwoValuesRenders();
    Renders(part, ctx.settings, UpdateSetTwoValuesEvents());
    var r := ctx.Render(part);
    v := AssertEvents(ctx.listener, Lists(Entries(UpdateSetTwoValuesEvents())));
  }

  /** The query part test_UPDATE_SET_rowValueExpressions renders. */
  function UpdateSetRowValueExpressionsPart(): QueryPart
  {
    UpdatePart(UpdateQuery(Table1(), [Assignment(RowOf([FieldName1(), FieldDate1()]), RowOf([Val(StringValue("value")), FieldDate1()]))], None, []))
  }

  /** The clause-start events test_UPDATE_SET_rowValueExpressions pins, in order. */
  function UpdateSetRowValueExpressionsEvents(): Log
  {
    Empty
      .Then([Update])
      .Then([Update, UpdateUpdate])
      .Then([Update, UpdateUpdate, Table])
      .Then([Update, UpdateUpdate, Table, TableReference])
      .Then([Update, UpdateSet])
      .Then([Update, UpdateSet, UpdateSetAssignment])
      .Then([Update, UpdateSet, UpdateSetAssignment, FieldRow])
      .Then([Update, UpdateSet, UpdateSetAssignment, FieldRow, Field])
      .Then([Update, UpdateSet, UpdateSetAssignment, FieldRow, Field, FieldReference])
      .Then([Update, UpdateSet, UpdateSetAssignment, FieldRow, Field])
      .Then([Update, UpdateSet, UpdateSetAssignment, FieldRow, Field, FieldReference])
      .Then([Update, UpdateSet, UpdateSetAssignment, FieldRow])
      .Then([Update, UpdateSet, UpdateSetAssignment, FieldRow, Field])
      .Then([Update, UpdateSet, UpdateSetAssignment, FieldRow, Field, FieldValue])
      .Then([Update, UpdateSet, UpdateSetAssignment, FieldRow, Field])
      .Then([Update, UpdateSet, UpdateSetAssignment, FieldRow, Field, FieldReference])
      .Then([Update, UpdateWhere])
      .Then([Update, UpdateReturning])
  }

  /** In the dialect of the test the part renders, with exactly the listed events. */
  lemma UpdateSetRowValueExpressionsRenders()
    ensures PartRenderable(UpdateSetRowValueExpressionsPart(), Settings(Postgres, false, false))
    ensures PartLog(Empty, Root, UpdateSetRowValueExpressionsPart(), Settings(Postgres, false, false)) == UpdateSetRowValueExpressionsEvents()
  {
  }

  method TestUpdateSetRowValueExpressions(ctx: RenderContext) returns (v: Verdict)
    requires Fixture(ctx)
    modifies ctx, ctx.listener
    ensures v == Pass
  {
    ctx.SetDialect(Postgres);
    var part := UpdateSetRowValueExpressionsPart();
    UpdateSetRowValueExpressionsRenders();
    Renders(part, ctx.settings, UpdateSetRowValueExpressionsEvents());
    var r := ctx.Render(part);
    v := AssertEvents(ctx.listener, Lists(Entries(UpdateSetRowValueExpressionsEvents())));
  }

  /** The query part test_UPDATE_SET_WHERE renders. */
  function UpdateSetWherePart(): QueryPart
  {
    UpdatePart(UpdateQuery(Table1(), [Assignment(Single(FieldName1()), Single(Val(StringValue("value"))))], Some(Compare(Eq, Single(FieldId1()), Single(Val(IntValue(1))))), []))
  }

  /** The clause-start events test_UPDATE_SET_WHERE pins, in order. */
  function UpdateSetWhereEvents(): Log
  {
    Empty
      .Then([Update])
      .Then([Update, UpdateUpdate])
      .Then([Update, UpdateUpdate, Table])
      .Then([Update, UpdateUpdate, Table, TableReference])
      .Then([Update, UpdateSet])
      .Then([Update, UpdateSet, UpdateSetAssignment])
      .Then([Update, UpdateSet, UpdateSetAssignment, Field])
      .Then([Update, UpdateSet, UpdateSetAssignment, Field, FieldReference])
      .Then([Update, UpdateSet, UpdateSetAssignment, Field])
      .Then([Update, UpdateSet, UpdateSetAssignment, Field, FieldValue])
      .Then([Update, UpdateWhere])
      .Then([Update, UpdateWhere, Condition])
      .Then([Update, UpdateWhere, Condition, ConditionComparison])
      .Then([Update, UpdateWhere, Condition, ConditionComparison, Field])
      .Then([Update, UpdateWhere, Condition, ConditionComparison, Field, FieldReference])
      .Then([Update, UpdateWhere, Condition, ConditionComparison, Field])
      .Then([Update, UpdateWhere, Condition, ConditionComparison, Field, FieldValue])
      .Then([Update, UpdateReturning])
  }

  /** In the dialect of the test the part renders, with exactly the listed events. */
  lemma UpdateSetWhereRenders()
    ensures PartRenderable(UpdateSetWherePart(), Settings(Default, false, false))
    ensures PartLog(Empty, Root, UpdateSetWherePart(), Settings(Default, false, false)) == UpdateSetWhereEvents()
  {
  }

  method TestUpdateSetWhere(ctx: RenderContext) returns (v: Verdict)
    requires Fixture(ctx)
    modifies ctx, ctx.listener
    ensures v == Pass
  {
    var part := UpdateSetWherePart();
    UpdateSetWhereRenders();
    Renders(part, ctx.settings, UpdateSetWhereEvents());
    var r := ctx.Render(part);
    v := AssertEvents(ctx.listener, Lists(Entries(UpdateSetWhereEvents())));
  }

  /** The query part test_CONDITION_simple renders. */
  function ConditionSimplePart(): QueryPart
  {
    ConditionPart(Compare(Eq, Single(FieldId1()), Single(Val(IntValue(1)))))
  }

  /** The clause-start events test_CONDITION_simple pins, in order. */
  function ConditionSimpleEvents(): Log
  {
    Empty
      .Then([Condition])
      .Then([Condition, ConditionComparison])
      .Then([Condition, ConditionComparison, Field])
      .Then([Condition, ConditionComparison, Field, FieldReference])
      .Then([Condition, ConditionComparison, Field])
      .Then([Condition, ConditionComparison, Field, FieldValue])
  }

  /** In the dialect of the test the part renders, with exactly the listed events. */
  lemma ConditionSimpleRenders()
    ensures PartRenderable(ConditionSimplePart(), Settings(Default, false, false))
    ensures PartLog(Empty, Root, ConditionSimplePart(), Settings(Default, false, false)) == ConditionSimpleEvents()
  {
  }

  method TestConditionSimple(ctx: RenderContext) returns (v: Verdict)
    requires Fixture(ctx)
    modifies ctx, ctx.listener
    ensures v == Pass
  {
    var part := ConditionSimplePart();
    ConditionSimpleRenders();
    Renders(part, ctx.settings, ConditionSimpleEvents());
    var r := ctx.Render(part);
    v := AssertEvents(ctx.listener, Lists(Entries(ConditionSimpleEvents())));
  }

  /** The query part test_CONDITION_NOT renders. */
  function ConditionNotPart(): QueryPart
  {
    ConditionPart(Not(Compare(Eq, Single(FieldId1()), Single(Val(IntValue(1))))))
  }

  /** The clause-start events test_CONDITION_NOT pins, in order. */
  function ConditionNotEvents(): Log
  {
    Empty
      .Then([Condition])
      .Then([Condition, ConditionNot])
      .Then([Condition, ConditionNot, Condition])
      .Then([Condition, ConditionNot, Condition, ConditionComparison])
      .Then([Condition, ConditionNot, Condition, ConditionComparison, Field])
      .Then([Condition, ConditionNot, Condition, ConditionComparison, Field, FieldReference])
      .Then([Condition, ConditionNot, Condition, ConditionComparison, Field])
      .Then([Condition, ConditionNot, Condition, ConditionComparison, Field, FieldValue])
  }

  /** In the dialect of the test the part renders, with exactly the listed events. */
  lemma ConditionNotRenders()
    ensures PartRenderable(ConditionNotPart(), Settings(Default, false, false))
    ensures PartLog(Empty, Root, ConditionNotPart(), Settings(Default, false, false)) == ConditionNotEvents()
  {
  }

  method TestConditionNot(ctx: RenderContext) returns (v: Verdict)
    requires Fixture(ctx)
    modifies ctx, ctx.listener
    ensures v == Pass
  {
    var part := ConditionNotPart();
    ConditionNotRenders();
    Renders(part, ctx.settings, ConditionNotEvents());
    var r := ctx.Render(part);
    v := AssertEvents(ctx.listener, Lists(Entries(ConditionNotEvents())));
  }

  /** The query part test_CONDITION_AND renders. */
  function ConditionAndPart(): QueryPart
  {
    ConditionPart(And(Compare(Eq, Single(FieldId1()), Single(Val(IntValue(1)))), IsNotNull(Single(FieldName1()))))
  }

  /** The clause-start events test_CONDITION_AND pins, in order. */
  function ConditionAndEvents(): Log
  {
    Empty
      .Then([Condition])
      .Then([Condition, ConditionAnd])
      .Then([Condition, ConditionAnd, Condition])
      .Then([Condition, ConditionAnd, Condition, ConditionComparison])
      .Then([Condition, ConditionAnd, Condition, ConditionComparison, Field])
      .Then([Condition, ConditionAnd, Condition, ConditionComparison, Field, FieldReference])
      .Then([Condition, ConditionAnd, Condition, ConditionComparison, Field])
      .Then([Condition, ConditionAnd, Condition, ConditionComparison, Field, FieldValue])
      .Then([Condition, ConditionAnd, Condition])
      .Then([Condition, ConditionAnd, Condition, ConditionIsNotNull])
      .Then([Condition, ConditionAnd, Condition, ConditionIsNotNull, Field])
      .Then([Condition, ConditionAnd, Condition, ConditionIsNotNull, Field, FieldReference])
  }

  /** In the dialect of the test the part renders, with exactly the listed events. */
  lemma ConditionAndRenders()
    ensures PartRenderable(ConditionAndPart(), Settings(Default, false, false))
    ensures PartLog(Empty, Root, ConditionAndPart(), Settings(Default, false, false)) == ConditionAndEvents()
  {
  }

  method TestConditionAnd(ctx: RenderContext) returns (v: Verdict)
    requires Fixture(ctx)
    modifies ctx, ctx.listener
    ensures v == Pass
  {
    var part := ConditionAndPart();
    ConditionAndRenders();
    Renders(part, ctx.settings, ConditionAndEvents());
    var r := ctx.Render(part);
    v := AssertEvents(ctx.listener, Lists(Entries(ConditionAndEvents())));
  }

  /** The query part test_CONDITION_OR renders. */
  function ConditionOrPart(): QueryPart
  {
    ConditionPart(Or(Compare(Eq, Single(FieldId1()), Single(Val(IntValue(1)))), IsNull(Single(FieldName1()))))
  }

  /** The clause-start events test_CONDITION_OR pins, in order. */
  function ConditionOrEvents(): Log
  {
    Empty
      .Then([Condition])
      .Then([Condition, ConditionOr])
      .Then([Condition, ConditionOr, Condition])
      .Then([Condition, ConditionOr, Condition, ConditionComparison])
      .Then([Condition, ConditionOr, Condition, ConditionComparison, Field])
      .Then([Condition, ConditionOr, Condition, ConditionComparison, Field, FieldReference])
      .Then([Condition, ConditionOr, Condition, ConditionComparison, Field])
      .Then([Condition, ConditionOr, Condition, ConditionComparison, Field, FieldValue])
      .Then([Condition, ConditionOr, Condition])
      .Then([Condition, ConditionOr, Condition, ConditionIsNull])
      .Then([Condition, ConditionOr, Condition, ConditionIsNull, Field])
      .Then([Condition, ConditionOr, Condition, ConditionIsNull, Field, FieldReference])
  }

  /** In the dialect of the test the part renders, with exactly the listed events. */
  lemma ConditionOrRenders()
    ensures PartRenderable(ConditionOrPart(), Settings(Default, false, false))
    ensures PartLog(Empty, Root, ConditionOrPart(), Settings(Default, false, false)) == ConditionOrEvents()
  {
  }

  method TestConditionOr(ctx: RenderContext) returns (v: Verdict)
    requires Fixture(ctx)
    modifies ctx, ctx.listener
    ensures v == Pass
  {
    var part := ConditionOrPart();
    ConditionOrRenders();
    Renders(part, ctx.settings, ConditionOrEvents());
    var r := ctx.Render(part);
    v := AssertEvents(ctx.listener, Lists(Entries(ConditionOrEvents())));
  }

  /** The query part test_CONDITION_NULL renders. */
  function ConditionNullPart(): QueryPart
  {
    ConditionPart(IsNull(Single(FieldId1())))
  }

  /** The clause-start events test_CONDITION_NULL pins, in order. */
  function ConditionNullEvents(): Log
  {
    Empty
      .Then([Condition])
      .Then([Condition, ConditionIsNull])
      .Then([Condition, ConditionIsNull, Field])
      .Then([Condition, ConditionIsNull, Field, FieldReference])
  }

  /** In the dialect of the test the part renders, with exactly the listed events. */
  lemma ConditionNullRenders()
    ensures PartRenderable(ConditionNullPart(), Settings(Default, false, false))
    ensures PartLog(Empty, Root, ConditionNullPart(), Settings(Default, false, false)) == ConditionNullEvents()
  {
  }

  method TestConditionNull(ctx: RenderContext) returns (v: Verdict)
    requires Fixture(ctx)
    modifies ctx, ctx.listener
    ensures v == Pass
  {
    var part := ConditionNullPart();
    ConditionNullRenders();
    Renders(part, ctx.settings, ConditionNullEvents());
    var r := ctx.Render(part);
    v := AssertEvents(ctx.listener, Lists(Entries(ConditionNullEvents())));
  }

  /** The query part test_CONDITION_NOT_NULL renders. */
  function ConditionNotNullPart(): QueryPart
  {
    ConditionPart(IsNotNull(Single(FieldId1())))
  }

  /** The clause-start events test_CONDITION_NOT_NULL pins, in order. */
  function ConditionNotNullEvents(): Log
  {
    Empty
      .Then([Condition])
      .Then([Condition, ConditionIsNotNull])
      .Then([Condition, ConditionIsNotNull, Field])
      .Then([Condition, ConditionIsNotNull, Field, FieldReference])
  }

  /** In the dialect of the test the part renders, with exactly the listed events. */
  lemma ConditionNotNullRenders()
    ensures PartRenderable(ConditionNotNullPart(), Settings(Default, false, false))
    ensures PartLog(Empty, Root, ConditionNotNullPart(), Settings(Default, false, false)) == ConditionNotNullEvents()
  {
  }

  method TestConditionNotNull(ctx: RenderContext) returns (v: Verdict)
    requires Fixture(ctx)
    modifies ctx, ctx.listener
    ensures v == Pass
  {
    var part := ConditionNotNullPart();
    ConditionNotNullRenders();
    Renders(part, ctx.settings, ConditionNotNullEvents());
    var r := ctx.Render(part);
    v := AssertEvents(ctx.listener, Lists(Entries(ConditionNotNullEvents())));
  }

  /** The query part test_CONDITION_IN renders. */
  function ConditionInPart(): QueryPart
  {
    ConditionPart(InList(Single(FieldId1()), [Single(Val(IntValue(1))), Single(Val(IntValue(2)))], false))
  }

  /** The clause-start events test_CONDITION_IN pins, in order. */
  function ConditionInEvents(): Log
  {
    Empty
      .Then([Condition])
      .Then([Condition, ConditionIn])
      .Then([Condition, ConditionIn, Field])
      .Then([Condition, ConditionIn, Field, FieldReference])
      .Then([Condition, ConditionIn, Field])
      .Then([Condition, ConditionIn, Field, FieldValue])
      .Then([Condition, ConditionIn, Field])
      .Then([Condition, ConditionIn, Field, FieldValue])
  }

  /** In the dialect of the test the part renders, with exactly the listed events. */
  lemma ConditionInRenders()
    ensures PartRenderable(ConditionInPart(), Settings(Default, false, false))
    ensures PartLog(Empty, Root, ConditionInPart(), Settings(Default, false, false)) == ConditionInEvents()
  {
  }

  method TestConditionIn(ctx: RenderContext) returns (v: Verdict)
    requires Fixture(ctx)
    modifies ctx, ctx.listener
    ensures v == Pass
  {
    var part := ConditionInPart();
    ConditionInRenders();
    Renders(part, ctx.settings, ConditionInEvents());
    var r := ctx.Render(part);
    v := AssertEvents(ctx.listener, Lists(Entries(ConditionInEvents())));
  }

  /** The query part test_CONDITION_NOT_IN renders. */
  function ConditionNotInPart(): QueryPart
  {
    ConditionPart(InList(Single(FieldId1()), [Single(Val(IntValue(1))), Single(Val(IntValue(2)))], true))
  }

  /** The clause-start events test_CONDITION_NOT_IN pins, in order. */
  function ConditionNotInEvents(): Log
  {
    Empty
      .Then([Condition])
      .Then([Condition, ConditionNotIn])
      .Then([Condition, ConditionNotIn, Field])
      .Then([Condition, ConditionNotIn, Field, FieldReference])
      .Then([Condition, ConditionNotIn, Field])
      .Then([Condition, ConditionNotIn, Field, FieldValue])
      .Then([Condition, ConditionNotIn, Field])
      .Then([Condition, ConditionNotIn, Field, FieldValue])
  }

  /** In the dialect of the test the part renders, with exactly the listed events. */
  lemma ConditionNotInRenders()
    ensures PartRenderable(ConditionNotInPart(), Settings(Default, false, false))
    ensures PartLog(Empty, Root, ConditionNotInPart(), Settings(Default, false, false)) == ConditionNotInEvents()
  {
  }

  method TestConditionNotIn(ctx: RenderContext) returns (v: Verdict)
    requires Fixture(ctx)
    modifies ctx, ctx.listener
    ensures v == Pass
  {
    var part := ConditionNotInPart();
    ConditionNotInRenders();
    Renders(part, ctx.settings, ConditionNotInEvents());
    var r := ctx.Render(part);
    v := AssertEvents(ctx.listener, Lists(Entries(ConditionNotInEvents())));
  }

  /** The query part test_CONDITION_EXISTS renders. */
  function ConditionExistsPart(): QueryPart
  {
    ConditionPart(Exists(SelectQuery([Val(IntValue(1))], [], None), false))
  }

  /** The clause-start events test_CONDITION_EXISTS pins, in order. */
  function ConditionExistsEvents(): Log
  {
    Empty
      .Then([Condition])
      .Then([Condition, ConditionExists])
      .Then([Condition, ConditionExists, Select])
      .Then([Condition, ConditionExists, Select, SelectSelect])
      .Then([Condition, ConditionExists, Select, SelectSelect, Field])
      .Then([Condition, ConditionExists, Select, SelectSelect, Field, FieldValue])
      .Then([Condition, ConditionExists, Select, SelectFrom])
      .Then([Condition, ConditionExists, Select, SelectWhere])
      .Then([Condition, ConditionExists, Select, SelectStartWith])
      .Then([Condition, ConditionExists, Select, SelectConnectBy])
      .Then([Condition, ConditionExists, Select, SelectGroupBy])
      .Then([Condition, ConditionExists, Select, SelectHaving])
      .Then([Condition, ConditionExists, Select, SelectOrderBy])
  }

  /** In the dialect of the test the part renders, with exactly the listed events. */
  lemma ConditionExistsRenders()
    ensures PartRenderable(ConditionExistsPart(), Settings(Postgres, false, false))
    ensures PartLog(Empty, Root, ConditionExistsPart(), Settings(Postgres, false, false)) == ConditionExistsEvents()
  {
  }

  method TestConditionExists(ctx: RenderContext) returns (v: Verdict)
    requires Fixture(ctx)
    modifies ctx, ctx.listener
    ensures v == Pass
  {
    ctx.SetDialect(Postgres);
    var part := ConditionExistsPart();
    ConditionExistsRenders();
    Renders(part, ctx.settings, ConditionExistsEvents());
    var r := ctx.Render(part);
    v := AssertEvents(ctx.listener, Lists(Entries(ConditionExistsEvents())));
  }

  /** The query part test_CONDITION_NOT_EXISTS renders. */
  function ConditionNotExistsPart(): QueryPart
  {
    ConditionPart(Exists(SelectQuery([Val(IntValue(1))], [], None), true))
  }

  /** The clause-start events test_CONDITION_NOT_EXISTS pins, in order. */
  function ConditionNotExistsEvents(): Log
  {
    Empty
      .Then([Condition])
      .Then([Condition, ConditionNotExists])
      .Then([Condition, ConditionNotExists, Select])
      .Then([Condition, ConditionNotExists, Select, SelectSelect])
      .Then([Condition, ConditionNotExists, Select, SelectSelect, Field])
      .Then([Condition, ConditionNotExists, Select, SelectSelect, Field, FieldValue])
      .Then([Condition, ConditionNotExists, Select, SelectFrom])
      .Then([Condition, ConditionNotExists, Select, SelectWhere])
      .Then([Condition, ConditionNotExists, Select, SelectStartWith])
      .Then([Condition, ConditionNotExists, Select, SelectConnectBy])
      .Then([Condition, ConditionNotExists, Select, SelectGroupBy])
      .Then([Condition, ConditionNotExists, Select, SelectHaving])
      .Then([Condition, ConditionNotExists, Select, SelectOrderBy])
  }

  /** In the dialect of the test the part renders, with exactly the listed events. */
  lemma ConditionNotExistsRenders()
    ensures PartRenderable(ConditionNotExistsPart(), Settings(Postgres, false, false))
    ensures PartLog(Empty, Root, ConditionNotExistsPart(), Settings(Postgres, false, false)) == ConditionNotExistsEvents()
  {
  }

  method TestConditionNotExists(ctx: RenderContext) returns (v: Verdict)
    requires Fixture(ctx)
    modifies ctx, ctx.listener
    ensures v == Pass
  {
    ctx.SetDialect(Postgres);
    var part := ConditionNotExistsPart();
    ConditionNotExistsRenders();
    Renders(part, ctx.settings, ConditionNotExistsEvents());
    var r := ctx.Render(part);
    v := AssertEvents(ctx.listener, Lists(Entries(ConditionNotExistsEvents())));
  }

  /** The query part test_CONDITION_BETWEEN renders. */
  function ConditionBetweenPart(): QueryPart
  {
    ConditionPart(Between(Single(FieldId1()), Single(Val(IntValue(1))), Single(Val(IntValue(2))), false, false))
  }

  /** The clause-start events test_CONDITION_BETWEEN pins, in order. */
  function ConditionBetweenEvents(): Log
  {
    Empty
      .Then([Condition])
      .Then([Condition, ConditionBetween])
      .Then([Condition, ConditionBetween, Field])
      .Then([Condition, ConditionBetween, Field, FieldReference])
      .Then([Condition, ConditionBetween, Field])
      .Then([Condition, ConditionBetween, Field, FieldValue])
      .Then([Condition, ConditionBetween, Field])
      .Then([Condition, ConditionBetween, Field, FieldValue])
  }

  /** In the dialect of the test the part renders, with exactly the listed events. */
  lemma ConditionBetweenRenders()
    ensures PartRenderable(ConditionBetweenPart(), Settings(Default, false, false))
    ensures PartLog(Empty, Root, ConditionBetweenPart(), Settings(Default, false, false)) == ConditionBetweenEvents()
  {
  }

  method TestConditionBetween(ctx: RenderContext) returns (v: Verdict)
    requires Fixture(ctx)
    modifies ctx, ctx.listener
    ensures v == Pass
  {
    var part := ConditionBetweenPart();
    ConditionBetweenRenders();
    Renders(part, ctx.settings, ConditionBetweenEvents());
    var r := ctx.Render(part);
    v := AssertEvents(ctx.listener, Lists(Entries(ConditionBetweenEvents())));
  }

  /** The query part test_CONDITION_NOT_BETWEEN renders. */
  function ConditionNotBetweenPart(): QueryPart
  {
    ConditionPart(Between(Single(FieldId1()), Single(Val(IntValue(1))), Single(Val(IntValue(2))), true, false))
  }

  /** The clause-start events test_CONDITION_NOT_BETWEEN pins, in order. */
  function ConditionNotBetweenEvents(): Log
  {
    Empty
      .Then([Condition])
      .Then([Condition, ConditionNotBetween])
      .Then([Condition, ConditionNotBetween, Field])
      .Then([Condition, ConditionNotBetween, Field, FieldReference])
      .Then([Condition, ConditionNotBetween, Field])
      .Then([Condition, ConditionNotBetween, Field, FieldValue])
      .Then([Condition, ConditionNotBetween, Field])
      .Then([Condition, ConditionNotBetween, Field, FieldValue])
  }

  /** In the dialect of the test the part renders, with exactly the listed events. */
  lemma ConditionNotBetweenRenders()
    ensures PartRenderable(ConditionNotBetweenPart(), Settings(Default, false, false))
    ensures PartLog(Empty, Root, ConditionNotBetweenPart(), Settings(Default, false, false)) == ConditionNotBetweenEvents()
  {
  }

  method TestConditionNotBetween(ctx: RenderContext) returns (v: Verdict)
    requires Fixture(ctx)
    modifies ctx, ctx.listener
    ensures v == Pass
  {
    var part := ConditionNotBetweenPart();
    ConditionNotBetweenRenders();
    Renders(part, ctx.settings, ConditionNotBetweenEvents());
    var r := ctx.Render(part);
    v := AssertEvents(ctx.listener, Lists(Entries(ConditionNotBetweenEvents())));
  }

  /** The query part test_CONDITION_BETWEEN_SYMMETRIC renders. */
  function ConditionBetweenSymmetricPart(): QueryPart
  {
    ConditionPart(Between(Single(FieldId1()), Single(Val(IntValue(1))), Single(Val(IntValue(2))), false, true))
  }

  /** The clause-start events test_CONDITION_BETWEEN_SYMMETRIC pins, in order. */
  function ConditionBetweenSymmetricEvents(): Log
  {
    Empty
      .Then([Condition])
      .Then([Condition, ConditionBetweenSymmetric])
      .Then([Condition, ConditionBetweenSymmetric, Field])
      .Then([Condition, ConditionBetweenSymmetric, Field, FieldReference])
      .Then([Condition, ConditionBetweenSymmetric, Field])
      .Then([Condition, ConditionBetweenSymmetric, Field, FieldValue])
      .Then([Condition, ConditionBetweenSymmetric, Field])
      .Then([Condition, ConditionBetweenSymmetric, Field, FieldValue])
  }

  /** In the dialect of the test the part renders, with exactly the listed events. */
  lemma ConditionBetweenSymmetricRenders()
    ensures PartRenderable(ConditionBetweenSymmetricPart(), Settings(Postgres, false, false))
    ensures PartLog(Empty, Root, ConditionBetweenSymmetricPart(), Settings(Postgres, false, false)) == ConditionBetweenSymmetricEvents()
  {
  }

  method TestConditionBetweenSymmetric(ctx: RenderContext) returns (v: Verdict)
    requires Fixture(ctx)
    modifies ctx, ctx.listener
    ensures v == Pass
  {
    ctx.SetDialect(Postgres);
    var part := ConditionBetweenSymmetricPart();
    ConditionBetweenSymmetricRenders();
    Renders(part, ctx.settings, ConditionBetweenSymmetricEvents());
    var r := ctx.Render(part);
    v := AssertEvents(ctx.listener, Lists(Entries(ConditionBetweenSymmetricEvents())));
  }

  /** The query part test_CONDITION_NOT_BETWEEN_SYMMETRIC renders. */
  function ConditionNotBetweenSymmetricPart(): QueryPart
  {
    ConditionPart(Between(Single(FieldId1()), Single(Val(IntValue(1))), Single(Val(IntValue(2))), true, true))
  }

  /** The clause-start events test_CONDITION_NOT_BETWEEN_SYMMETRIC pins, in order. */
  function ConditionNotBetweenSymmetricEvents(): Log
  {
    Empty
      .Then([Condition])
      .Then([Condition, ConditionNotBetweenSymmetric])
      .Then([Condition, ConditionNotBetweenSymmetric, Field])
      .Then([Condition, ConditionNotBetweenSymmetric, Field, FieldReference])
      .Then([Condition, ConditionNotBetweenSymmetric, Field])
      .Then([Condition, ConditionNotBetweenSymmetric, Field, FieldValue])
      .Then([Condition, ConditionNotBetweenSymmetric, Field])
      .Then([Condition, ConditionNotBetweenSymmetric, Field, FieldValue])
  }

  /** In the dialect of the test the part renders, with exactly the listed events. */
  lemma ConditionNotBetweenSymmetricRenders()
    ensures PartRenderable(ConditionNotBetweenSymmetricPart(), Settings(Postgres, false, false))
    ensures PartLog(Empty, Root, ConditionNotBetweenSymmetricPart(), Settings(Postgres, false, false)) == ConditionNotBetweenSymmetricEvents()
  {
  }

  method TestConditionNotBetweenSymmetric(ctx: RenderContext) returns (v: Verdict)
    requires Fixture(ctx)
    modifies ctx, ctx.listener
    ensures v == Pass
  {
    ctx.SetDialect(Postgres);
    var part := ConditionNotBetweenSymmetricPart();
    ConditionNotBetweenSymmetricRenders();
    Renders(part, ctx.settings, ConditionNotBetweenSymmetricEvents());
    var r := ctx.Render(part);
    v := AssertEvents(ctx.listener, Lists(Entries(ConditionNotBetweenSymmetricEvents())));
  }

  /** The query part test_CONDITION_NOT_BETWEEN_SYMMETRIC_rowValueExpressions renders. */
  function ConditionNotBetweenSymmetricRowValueExpressionsPart(): QueryPart
  {
    ConditionPart(Between(RowOf([FieldId1(), FieldName1()]), RowOf([Val(IntValue(1)), Val(StringValue("a"))]), RowOf([Val(IntValue(2)), Val(StringValue("b"))]), true, true))
  }

  /** The clause-start events test_CONDITION_NOT_BETWEEN_SYMMETRIC_rowValueExpressions pins, in order. */
  function ConditionNotBetweenSymmetricRowValueExpressionsEvents(): Log
  {
    Empty
      .Then([Condition])
      .Then([Condition, ConditionNotBetweenSymmetric])
      .Then([Condition, ConditionNotBetweenSymmetric, FieldRow])
      .Then([Condition, ConditionNotBetweenSymmetric, FieldRow, Field])
      .Then([Condition, ConditionNotBetweenSymmetric, FieldRow, Field, FieldReference])
      .Then([Condition, ConditionNotBetweenSymmetric, FieldRow, Field])
      .Then([Condition, ConditionNotBetweenSymmetric, FieldRow, Field, FieldReference])
      .Then([Condition, ConditionNotBetweenSymmetric, FieldRow])
      .Then([Condition, ConditionNotBetweenSymmetric, FieldRow, Field])
      .Then([Condition, ConditionNotBetweenSymmetric, FieldRow, Field, FieldValue])
      .Then([Condition, ConditionNotBetweenSymmetric, FieldRow, Field])
      .Then([Condition, ConditionNotBetweenSymmetric, FieldRow, Field, FieldValue])
      .Then([Condition, ConditionNotBetweenSymmetric, FieldRow])
      .Then([Condition, ConditionNotBetweenSymmetric, FieldRow, Field])
      .Then([Condition, ConditionNotBetweenSymmetric, FieldRow, Field, FieldValue])
      .Then([Condition, ConditionNotBetweenSymmetric, FieldRow, Field])
      .Then([Condition, ConditionNotBetweenSymmetric, FieldRow, Field, FieldValue])
  }

  /** In the dialect of the test the part renders, with exactly the listed events. */
  lemma ConditionNotBetweenSymmetricRowValueExpressionsRenders()
    ensures PartRenderable(ConditionNotBetweenSymmetricRowValueExpressionsPart(), Settings(Postgres, false, false))
    ensures PartLog(Empty, Root, ConditionNotBetweenSymmetricRowValueExpressionsPart(), Settings(Postgres, false, false)) == ConditionNotBetweenSymmetricRowValueExpressionsEvents()
  {
  }

  method TestConditionNotBetweenSymmetricRowValueExpressions(ctx: RenderContext) returns (v: Verdict)
    requires Fixture(ctx)
    modifies ctx, ctx.listener
    ensures v == Pass
  {
    ctx.SetDialect(Postgres);
    var part := ConditionNotBetweenSymmetricRowValueExpressionsPart();
    ConditionNotBetweenSymmetricRowValueExpressionsRenders();
    Renders(part, ctx.settings, ConditionNotBetweenSymmetricRowValueExpressionsEvents());
    var r := ctx.Render(part);
    v := AssertEvents(ctx.listener, Lists(Entries(ConditionNotBetweenSymmetricRowValueExpressionsEvents())));
  }
}
