/**
 * What the recorded clause lists look like for every query part, not only
 * for the ones the tests render: the shape of the lists, the effect of the
 * declaration modes, how conditions nest, which slots are always opened,
 * and how the dialect decides which regions are filled.
 */
module Properties {
  import opened Wrappers
  import opened Clauses
  import opened Paths
  import opened Scopes
  import opened Dialects
  import opened Ast
  import opened Plan

  /** How many of the recorded lists are `l`. */
  function Occurrences(ls: seq<seq<Clause>>, l: seq<Clause>): nat
  {
    if ls == [] then 0 else (if ls[0] == l then 1 else 0) + Occurrences(ls[1..], l)
  }

  lemma {:induction false} OccurrencesLists(s: seq<Path>, q: Path)
    ensures Occurrences(Lists(s), ToSeq(q)) == Count(s, q)
  {
    if s != [] {
      assert Lists(s)[1..] == Lists(s[1..]);
      OccurrencesLists(s[1..], q);
      if ToSeq(s[0]) == ToSeq(q) {
        ToSeqInjective(s[0], q);
      }
    }
  }

  /**
   * The number of times a list `rel` is recorded is the number of regions
   * of the plan reached by following `rel` from the root, one tag per level.
   */
  lemma RecordedCount(part: QueryPart, st: Settings, rel: seq<Clause>)
    requires rel != []
    ensures Occurrences(Recorded(part, st), rel) == Reach([PartScope(part, st)], rel)
  {
    var s := PartScope(part, st);
    SnapshotsOne(Root, s);
    ToSeqExtend(Root, rel);
    assert [] + rel == rel;
    OccurrencesLists(ScopeSnapshots(Root, s), Extend(Root, rel));
    CountReach(Root, [s], rel);
  }

  /**
   * The recorded lists are well nested: the first holds one tag, the part's
   * own; every list holds at least one tag; and every list without its last
   * tag is a prefix of the list before it, so between two clauseStart events
   * regions are only closed and each clauseStart opens exactly one.
   */
  lemma RecordedWellNested(part: QueryPart, st: Settings)
    ensures |Recorded(part, st)| > 0 && Recorded(part, st)[0] == [PartScope(part, st).clause]
    ensures forall k :: 0 <= k < |Recorded(part, st)| ==> |Recorded(part, st)[k]| > 0
    ensures forall k :: 0 < k < |Recorded(part, st)| ==>
      Recorded(part, st)[k][..|Recorded(part, st)[k]| - 1] <= Recorded(part, st)[k - 1]
  {
    var s := PartScope(part, st);
    var ps := ScopeSnapshots(Root, s);
    var r := Recorded(part, st);
    SnapshotsOne(Root, s);
    SnapshotsWellNested(Root, [s]);
    assert ps[0] == Push(Root, s.clause);
    forall k | 0 < k < |r|
      ensures r[k][..|r[k]| - 1] <= r[k - 1]
    {
      EnclosesIsPrefix(ps[k].outer, ps[k - 1]);
      assert r[k] == ToSeq(ps[k].outer) + [ps[k].top];
      assert r[k][..|r[k]| - 1] == ToSeq(ps[k].outer);
    }
  }

  /** The snapshots of a one-element forest are those of its scope. */
  lemma SnapshotsOne(p: Path, s: Scope)
    ensures Snapshots(p, [s]) == ScopeSnapshots(p, s)
  {
    assert [s][1..] == [];
    assert ScopeSnapshots(p, s) + [] == ScopeSnapshots(p, s);
  }

  /** The snapshots of a two-element forest, left then right. */
  lemma SnapshotsPair(p: Path, l: Scope, r: Scope)
    ensures Snapshots(p, [l, r]) == ScopeSnapshots(p, l) + ScopeSnapshots(p, r)
  {
    assert [l, r][1..] == [r];
    SnapshotsOne(p, r);
  }

  /** The lists of a region `a` holding only a region `b` holding only `s`. */
  lemma ListsOne(a: Clause, b: Clause, s: Scope)
    ensures Lists(ScopeSnapshots(Root, Scope(a, [Scope(b, [s])]))) ==
      [[a], [a, b]] + Prefixed([a, b], Lists(ScopeSnapshots(Root, s)))
  {
    var p1 := Push(Root, a);
    var p := Push(p1, b);
    SnapshotsOne(p, s);
    SnapshotsOne(p1, Scope(b, [s]));
    assert ScopeSnapshots(Root, Scope(a, [Scope(b, [s])])) == [p1, p] + ScopeSnapshots(p, s);
    ListsAppend([p1, p], ScopeSnapshots(p, s));
    ListsTwo(a, b);
    ScopeListsUnder(p, s);
  }

  /** The lists of a region `a` holding only a region `b` holding `l` then `r`. */
  lemma ListsPair(a: Clause, b: Clause, l: Scope, r: Scope)
    ensures Lists(ScopeSnapshots(Root, Scope(a, [Scope(b, [l, r])]))) ==
      [[a], [a, b]] + Prefixed([a, b], Lists(ScopeSnapshots(Root, l)) + Lists(ScopeSnapshots(Root, r)))
  {
    var p1 := Push(Root, a);
    var p := Push(p1, b);
    SnapshotsPair(p, l, r);
    SnapshotsOne(p1, Scope(b, [l, r]));
    assert ScopeSnapshots(Root, Scope(a, [Scope(b, [l, r])])) ==
      [p1, p] + (ScopeSnapshots(p, l) + ScopeSnapshots(p, r));
    ListsAppend([p1, p], ScopeSnapshots(p, l) + ScopeSnapshots(p, r));
    ListsAppend(ScopeSnapshots(p, l), ScopeSnapshots(p, r));
    ListsTwo(a, b);
    ScopeListsUnder(p, l);
    ScopeListsUnder(p, r);
    PrefixedAppend([a, b], Lists(ScopeSnapshots(Root, l)), Lists(ScopeSnapshots(Root, r)));
  }

  /** The lists of a region `a` holding only an empty region `b`. */
  lemma ListsLeaf(a: Clause, b: Clause)
    ensures Lists(ScopeSnapshots(Root, Scope(a, [Scope(b, [])]))) == [[a], [a, b]]
  {
    var p1 := Push(Root, a);
    SnapshotsOne(p1, Scope(b, []));
    assert ScopeSnapshots(Root, Scope(a, [Scope(b, [])])) == [p1, Push(p1, b)];
    ListsTwo(a, b);
  }

  /** The lists of the paths `a` and `a`, `b`. */
  lemma ListsTwo(a: Clause, b: Clause)
    ensures ToSeq(Push(Push(Root, a), b)) == [a, b]
    ensures Lists([Push(Root, a), Push(Push(Root, a), b)]) == [[a], [a, b]]
  {
    assert ToSeq(Push(Root, a)) == [] + [a] == [a];
    assert ToSeq(Push(Push(Root, a), b)) == [a] + [b] == [a, b];
    var ls := Lists([Push(Root, a), Push(Push(Root, a), b)]);
    assert |ls| == 2 && ls[0] == [a] && ls[1] == [a, b];
  }

  /** An aliased table opens its alias declaration only in declare mode; otherwise it is a reference. */
  lemma TableAliasRecorded(t: TableExpr, alias: string, st: Settings)
    ensures st.declareTables ==>
      Recorded(TablePart(TableAs(t, alias)), st) ==
        [[Table], [Table, TableAlias]] + Prefixed([Table, TableAlias], Recorded(TablePart(t), st))
    ensures !st.declareTables ==> Recorded(TablePart(TableAs(t, alias)), st) == [[Table], [Table, TableReference]]
  {
    if st.declareTables {
      ListsOne(Table, TableAlias, TableScope(t, st));
    } else {
      ListsLeaf(Table, TableReference);
    }
  }

  /** An aliased field opens its alias declaration only in declare mode; otherwise it is a reference. */
  lemma FieldAliasRecorded(f: FieldExpr, alias: string, st: Settings)
    ensures st.declareFields ==>
      Recorded(FieldPart(FieldAs(f, alias)), st) ==
        [[Field], [Field, FieldAlias]] + Prefixed([Field, FieldAlias], Recorded(FieldPart(f), st))
    ensures !st.declareFields ==> Recorded(FieldPart(FieldAs(f, alias)), st) == [[Field], [Field, FieldReference]]
  {
    if st.declareFields {
      ListsOne(Field, FieldAlias, FieldScope(f, st));
    } else {
      ListsLeaf(Field, FieldReference);
    }
  }

  /** NOT wraps its operand as a nested CONDITION region; nothing is collapsed. */
  lemma NotRecorded(c: ConditionExpr, st: Settings)
    ensures Recorded(ConditionPart(Not(c)), st) ==
      [[Condition], [Condition, ConditionNot]] + Prefixed([Condition, ConditionNot], Recorded(ConditionPart(c), st))
  {
    assert ConditionScope(Not(c), st) == Scope(Condition, [Scope(ConditionNot, [ConditionScope(c, st)])]);
    ListsOne(Condition, ConditionNot, ConditionScope(c, st));
  }

  /** A double negation keeps both NOT regions: it records four lists more than its operand. */
  lemma NotNotRecorded(c: ConditionExpr, st: Settings)
    ensures |Recorded(ConditionPart(Not(Not(c))), st)| == |Recorded(ConditionPart(c), st)| + 4
    ensures Recorded(ConditionPart(Not(Not(c))), st)[3] == [Condition, ConditionNot, Condition, ConditionNot]
  {
    NotRecorded(Not(c), st);
    NotRecorded(c, st);
  }

  /** AND and OR wrap each operand, left then right, as a nested CONDITION region. */
  lemma AndRecorded(l: ConditionExpr, r: ConditionExpr, st: Settings)
    ensures Recorded(ConditionPart(And(l, r)), st) ==
      [[Condition], [Condition, ConditionAnd]] +
      Prefixed([Condition, ConditionAnd], Recorded(ConditionPart(l), st) + Recorded(ConditionPart(r), st))
  {
    assert ConditionScope(And(l, r), st) ==
      Scope(Condition, [Scope(ConditionAnd, [ConditionScope(l, st), ConditionScope(r, st)])]);
    ListsPair(Condition, ConditionAnd, ConditionScope(l, st), ConditionScope(r, st));
  }

  lemma OrRecorded(l: ConditionExpr, r: ConditionExpr, st: Settings)
    ensures Recorded(ConditionPart(Or(l, r)), st) ==
      [[Condition], [Condition, ConditionOr]] +
      Prefixed([Condition, ConditionOr], Recorded(ConditionPart(l), st) + Recorded(ConditionPart(r), st))
  {
    assert ConditionScope(Or(l, r), st) ==
      Scope(Condition, [Scope(ConditionOr, [ConditionScope(l, st), ConditionScope(r, st)])]);
    ListsPair(Condition, ConditionOr, ConditionScope(l, st), ConditionScope(r, st));
  }

  /** EXISTS renders its subquery as a whole SELECT inside the EXISTS region. */
  lemma ExistsRecorded(q: SelectQuery, negated: bool, st: Settings)
    ensures Recorded(ConditionPart(Exists(q, negated)), st) ==
      [[Condition], [Condition, if negated then ConditionNotExists else ConditionExists]] +
      Prefixed([Condition, if negated then ConditionNotExists else ConditionExists], Recorded(SelectPart(q), st))
  {
    var tag := if negated then ConditionNotExists else ConditionExists;
    assert ConditionScope(Exists(q, negated), st) == Scope(Condition, [Scope(tag, [SelectScope(q, st)])]);
    ListsOne(Condition, tag, SelectScope(q, st));
  }
}
