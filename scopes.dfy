/**
 * Clause scopes and the clause-path snapshots they produce.
 *
 * A scope is one clause region of a render: the dispatcher pushes its tag,
 * notifies clauseStart, renders the scopes of its body left to right and pops
 * the tag again. Snapshots(p, f) is the list of paths that clauseStart sees
 * while the forest f is rendered with p open.
 */
module Scopes {
  import opened Clauses
  import opened Paths

  datatype Scope = Scope(clause: Clause, body: seq<Scope>)

  /** The number of clause regions in a scope (itself included). */
  function ScopeSize(s: Scope): nat
    decreases s
  {
    1 + Size(s.body)
  }

  function Size(f: seq<Scope>): nat
    decreases f
  {
    if f == [] then 0 else ScopeSize(f[0]) + Size(f[1..])
  }

  /** The tags of a forest in the order their regions open. */
  function ScopePreorder(s: Scope): seq<Clause>
    decreases s
  {
    [s.clause] + Preorder(s.body)
  }

  function Preorder(f: seq<Scope>): seq<Clause>
    decreases f
  {
    if f == [] then [] else ScopePreorder(f[0]) + Preorder(f[1..])
  }

  function ScopeSnapshots(p: Path, s: Scope): seq<Path>
    decreases s
  {
    [Push(p, s.clause)] + Snapshots(Push(p, s.clause), s.body)
  }

  function Snapshots(p: Path, f: seq<Scope>): seq<Path>
    decreases f
  {
    if f == [] then [] else ScopeSnapshots(p, f[0]) + Snapshots(p, f[1..])
  }

  lemma {:induction false} SizeAppend(a: seq<Scope>, b: seq<Scope>)
    ensures Size(a + b) == Size(a) + Size(b)
    decreases a
  {
    if a != [] {
      assert (a + b)[0] == a[0];
      assert (a + b)[1..] == a[1..] + b;
      SizeAppend(a[1..], b);
    } else {
      assert a + b == b;
    }
  }

  lemma {:induction false} PreorderAppend(a: seq<Scope>, b: seq<Scope>)
    ensures Preorder(a + b) == Preorder(a) + Preorder(b)
    decreases a
  {
    if a != [] {
      assert (a + b)[0] == a[0];
      assert (a + b)[1..] == a[1..] + b;
      PreorderAppend(a[1..], b);
    } else {
      assert a + b == b;
    }
  }

  /** Rendering a forest renders its parts one after the other. */
  lemma {:induction false} SnapshotsAppend(p: Path, a: seq<Scope>, b: seq<Scope>)
    ensures Snapshots(p, a + b) == Snapshots(p, a) + Snapshots(p, b)
    decreases a
  {
    if a != [] {
      assert (a + b)[0] == a[0];
      assert (a + b)[1..] == a[1..] + b;
      SnapshotsAppend(p, a[1..], b);
    } else {
      assert a + b == b;
    }
  }

  /**
   * One snapshot per clause region, and the k-th snapshot has the k-th
   * opened tag on top: clauseStart for a tag always sees that tag last.
   */
  lemma {:induction false} SnapshotsTops(p: Path, f: seq<Scope>)
    ensures |Snapshots(p, f)| == Size(f) == |Preorder(f)|
    ensures forall k :: 0 <= k < |Snapshots(p, f)| ==>
      Snapshots(p, f)[k].Push? && Snapshots(p, f)[k].top == Preorder(f)[k]
    decreases f
  {
    if f != [] {
      var s := f[0];
      SnapshotsTops(Push(p, s.clause), s.body);
      SnapshotsTops(p, f[1..]);
    }
  }

  /** The snapshots of a forest rendered inside `base` are the ones taken at the root, rebased. */
  lemma {:induction false} SnapshotsRebase(p: Path, base: Path, f: seq<Scope>)
    ensures Snapshots(Rebase(p, base), f) == RebaseAll(Snapshots(p, f), base)
    decreases f
  {
    if f != [] {
      ScopeSnapshotsRebase(p, base, f[0]);
      SnapshotsRebase(p, base, f[1..]);
      RebaseAllAppend(ScopeSnapshots(p, f[0]), Snapshots(p, f[1..]), base);
    }
  }

  lemma {:induction false} ScopeSnapshotsRebase(p: Path, base: Path, s: Scope)
    ensures ScopeSnapshots(Rebase(p, base), s) == RebaseAll(ScopeSnapshots(p, s), base)
    decreases s
  {
    SnapshotsRebase(Push(p, s.clause), base, s.body);
    RebaseAllAppend([Push(p, s.clause)], Snapshots(Push(p, s.clause), s.body), base);
  }

  /** What a listener records for a scope rendered inside `base`: its lists at the root, prefixed. */
  lemma ScopeListsUnder(base: Path, s: Scope)
    ensures Lists(ScopeSnapshots(base, s)) == Prefixed(ToSeq(base), Lists(ScopeSnapshots(Root, s)))
  {
    ScopeSnapshotsRebase(Root, base, s);
    ListsRebaseAll(ScopeSnapshots(Root, s), base);
  }

  lemma ListsUnder(base: Path, f: seq<Scope>)
    ensures Lists(Snapshots(base, f)) == Prefixed(ToSeq(base), Lists(Snapshots(Root, f)))
  {
    SnapshotsRebase(Root, base, f);
    ListsRebaseAll(Snapshots(Root, f), base);
  }

  /**
   * A list of snapshots taken while `p` is open is well nested when every
   * snapshot lies strictly inside `p`, the first one is `p` with one tag
   * pushed, and each later one, minus its top tag, encloses the snapshot
   * before it: between two clauseStart events tags are only popped, and
   * each clauseStart pushes exactly one tag.
   */
  predicate WellNested(p: Path, s: seq<Path>)
  {
    (forall k :: 0 <= k < |s| ==> s[k].Push? && Encloses(p, s[k].outer)) &&
    (|s| > 0 ==> s[0].outer == p) &&
    (forall k :: 0 < k < |s| ==> Encloses(s[k].outer, s[k - 1]))
  }

  lemma WellNestedAppend(p: Path, a: seq<Path>, b: seq<Path>)
    requires WellNested(p, a) && WellNested(p, b)
    ensures WellNested(p, a + b)
  {
    var s := a + b;
    forall k | 0 <= k < |s|
      ensures s[k].Push? && Encloses(p, s[k].outer)
    {
      if k < |a| {
        assert s[k] == a[k];
      } else {
        assert s[k] == b[k - |a|];
      }
    }
    forall k | 0 < k < |s|
      ensures Encloses(s[k].outer, s[k - 1])
    {
      if k < |a| {
        assert s[k] == a[k] && s[k - 1] == a[k - 1];
      } else if k > |a| {
        assert s[k] == b[k - |a|] && s[k - 1] == b[k - 1 - |a|];
      } else {
        var last := a[k - 1];
        assert s[k] == b[0] && s[k - 1] == last;
        assert Encloses(last.outer, last);
        EnclosesTransitive(p, last.outer, last);
      }
    }
    if |a| == 0 {
      assert s == b;
    } else {
      assert s[0] == a[0];
    }
  }

  lemma WellNestedOpen(p: Path, c: Clause, inner: seq<Path>)
    requires WellNested(Push(p, c), inner)
    ensures WellNested(p, [Push(p, c)] + inner)
  {
    var s := [Push(p, c)] + inner;
    assert Encloses(p, Push(p, c));
    forall k | 0 <= k < |s|
      ensures s[k].Push? && Encloses(p, s[k].outer)
    {
      if k > 0 {
        assert s[k] == inner[k - 1];
        EnclosesTransitive(p, Push(p, c), s[k].outer);
      }
    }
    forall k | 0 < k < |s|
      ensures Encloses(s[k].outer, s[k - 1])
    {
      assert s[k] == inner[k - 1];
      if k > 1 {
        assert s[k - 1] == inner[k - 2];
      }
    }
  }

  /** The snapshots of any forest are well nested. */
  lemma {:induction false} SnapshotsWellNested(p: Path, f: seq<Scope>)
    ensures WellNested(p, Snapshots(p, f))
    decreases f
  {
    if f != [] {
      var s := f[0];
      SnapshotsWellNested(Push(p, s.clause), s.body);
      WellNestedOpen(p, s.clause, Snapshots(Push(p, s.clause), s.body));
      SnapshotsWellNested(p, f[1..]);
      WellNestedAppend(p, ScopeSnapshots(p, s), Snapshots(p, f[1..]));
    }
  }

  /** How often the path `q` is seen in `s`. */
  function Count(s: seq<Path>, q: Path): nat
  {
    if s == [] then 0 else (if s[0] == q then 1 else 0) + Count(s[1..], q)
  }

  /** How many paths of `s` lie inside `q` (`q` itself included). */
  function CountWithin(s: seq<Path>, q: Path): nat
  {
    if s == [] then 0 else (if Encloses(q, s[0]) then 1 else 0) + CountWithin(s[1..], q)
  }

  lemma {:induction false} CountAppend(a: seq<Path>, b: seq<Path>, q: Path)
    ensures Count(a + b, q) == Count(a, q) + Count(b, q)
    ensures CountWithin(a + b, q) == CountWithin(a, q) + CountWithin(b, q)
  {
    if a != [] {
      assert (a + b)[0] == a[0];
      assert (a + b)[1..] == a[1..] + b;
      CountAppend(a[1..], b, q);
    } else {
      assert a + b == b;
    }
  }

  /** The number of regions reached from `f` by following the tags of `rel`, one per level. */
  function Reach(f: seq<Scope>, rel: seq<Clause>): nat
    requires rel != []
    decreases f
  {
    if f == [] then 0 else ScopeReach(f[0], rel) + Reach(f[1..], rel)
  }

  function ScopeReach(s: Scope, rel: seq<Clause>): nat
    requires rel != []
    decreases s
  {
    if s.clause != rel[0] then 0
    else if |rel| == 1 then 1
    else Reach(s.body, rel[1..])
  }

  /** The number of regions inside the regions reached from `f` along `rel` (those included). */
  function ReachSize(f: seq<Scope>, rel: seq<Clause>): nat
    requires rel != []
    decreases f
  {
    if f == [] then 0 else ScopeReachSize(f[0], rel) + ReachSize(f[1..], rel)
  }

  function ScopeReachSize(s: Scope, rel: seq<Clause>): nat
    requires rel != []
    decreases s
  {
    if s.clause != rel[0] then 0
    else if |rel| == 1 then ScopeSize(s)
    else ReachSize(s.body, rel[1..])
  }

  lemma {:induction false} ReachAppend(a: seq<Scope>, b: seq<Scope>, rel: seq<Clause>)
    requires rel != []
    ensures Reach(a + b, rel) == Reach(a, rel) + Reach(b, rel)
    ensures ReachSize(a + b, rel) == ReachSize(a, rel) + ReachSize(b, rel)
    decreases a
  {
    if a != [] {
      assert (a + b)[0] == a[0];
      assert (a + b)[1..] == a[1..] + b;
      ReachAppend(a[1..], b, rel);
    } else {
      assert a + b == b;
    }
  }

  lemma {:induction false} CountNone(s: seq<Path>, q: Path)
    requires forall k :: 0 <= k < |s| ==> s[k] != q
    ensures Count(s, q) == 0
  {
    if s != [] {
      CountNone(s[1..], q);
    }
  }

  lemma {:induction false} CountWithinNone(s: seq<Path>, q: Path)
    requires forall k :: 0 <= k < |s| ==> !Encloses(q, s[k])
    ensures CountWithin(s, q) == 0
  {
    if s != [] {
      CountWithinNone(s[1..], q);
    }
  }

  lemma {:induction false} CountWithinAll(s: seq<Path>, q: Path)
    requires forall k :: 0 <= k < |s| ==> Encloses(q, s[k])
    ensures CountWithin(s, q) == |s|
  {
    if s != [] {
      CountWithinAll(s[1..], q);
    }
  }

  /** Every snapshot taken while `p` is open lies strictly inside `p`. */
  lemma SnapshotsInside(p: Path, f: seq<Scope>, k: int)
    requires 0 <= k < |Snapshots(p, f)|
    ensures Snapshots(p, f)[k].Push? && Encloses(p, Snapshots(p, f)[k].outer)
    ensures Encloses(p, Snapshots(p, f)[k]) && Depth(Snapshots(p, f)[k]) > Depth(p)
  {
    SnapshotsWellNested(p, f);
    var x := Snapshots(p, f)[k];
    assert Encloses(x.outer, x);
    EnclosesTransitive(p, x.outer, x);
    EnclosesDepth(p, x.outer);
  }

  /** No snapshot taken while `p` is open is `p` itself. */
  lemma CountOwnPath(p: Path, f: seq<Scope>)
    ensures Count(Snapshots(p, f), p) == 0
  {
    var s := Snapshots(p, f);
    forall k | 0 <= k < |s|
      ensures s[k] != p
    {
      SnapshotsInside(p, f, k);
    }
    CountNone(s, p);
  }

  /** All snapshots taken while `p` is open lie inside every path enclosing `p`. */
  lemma CountWithinEnclosing(p: Path, f: seq<Scope>, q: Path)
    requires Encloses(q, p)
    ensures CountWithin(Snapshots(p, f), q) == Size(f)
  {
    var s := Snapshots(p, f);
    forall k | 0 <= k < |s|
      ensures Encloses(q, s[k])
    {
      SnapshotsInside(p, f, k);
      EnclosesTransitive(q, p, s[k]);
    }
    CountWithinAll(s, q);
    SnapshotsTops(p, f);
  }

  /** No snapshot taken while `p` is open is seen inside a path off the line through `p`. */
  lemma CountOffLine(p: Path, f: seq<Scope>, q: Path)
    requires !Encloses(q, p) && !Encloses(p, q)
    ensures Count(Snapshots(p, f), q) == 0 && CountWithin(Snapshots(p, f), q) == 0
  {
    var s := Snapshots(p, f);
    forall k | 0 <= k < |s|
      ensures !Encloses(q, s[k]) && s[k] != q
    {
      SnapshotsInside(p, f, k);
      if Encloses(q, s[k]) {
        EnclosesChain(p, q, s[k]);
      }
    }
    CountNone(s, q);
    CountWithinNone(s, q);
  }

  lemma {:induction false} EnclosesExtend(p: Path, rel: seq<Clause>)
    ensures Encloses(p, Extend(p, rel))
    decreases rel
  {
    if rel != [] {
      EnclosesExtend(Push(p, rel[0]), rel[1..]);
      assert Encloses(p, Push(p, rel[0]));
      EnclosesTransitive(p, Push(p, rel[0]), Extend(p, rel));
    }
  }

  /** Where the path `p` extended by `rel` lies relative to the region `c` opened at `p`. */
  lemma ExtendAgainstChild(p: Path, rel: seq<Clause>, c: Clause)
    requires rel != []
    ensures Encloses(Extend(p, rel), Push(p, c)) <==> rel == [c]
    ensures Extend(p, rel) == Push(p, c) <==> rel == [c]
    ensures rel[0] != c ==>
      !Encloses(Extend(p, rel), Push(p, c)) && !Encloses(Push(p, c), Extend(p, rel))
    ensures rel[0] == c ==> Extend(p, rel) == Extend(Push(p, c), rel[1..])
  {
    var q := Extend(p, rel);
    var r := Push(p, rel[0]);
    assert q == Extend(r, rel[1..]);
    EnclosesExtend(r, rel[1..]);
    if Encloses(q, Push(p, c)) {
      EnclosesDepth(q, Push(p, c));
      EnclosesDepth(r, q);
      assert q == Push(p, c);
      EnclosesDepth(r, Push(p, c));
    }
    if rel[0] != c && Encloses(Push(p, c), q) {
      EnclosesChain(r, Push(p, c), q);
      if Encloses(r, Push(p, c)) {
        EnclosesDepth(r, Push(p, c));
      } else {
        EnclosesDepth(Push(p, c), r);
      }
    }
  }

  /**
   * The number of snapshots equal to `p` extended by `rel` is the number of
   * regions reached along `rel`; the number inside it is the size of those
   * regions.
   */
  lemma {:induction false} CountReach(p: Path, f: seq<Scope>, rel: seq<Clause>)
    requires rel != []
    ensures Count(Snapshots(p, f), Extend(p, rel)) == Reach(f, rel)
    ensures CountWithin(Snapshots(p, f), Extend(p, rel)) == ReachSize(f, rel)
    decreases f
  {
    if f != [] {
      ScopeCountReach(p, f[0], rel);
      CountReach(p, f[1..], rel);
      CountAppend(ScopeSnapshots(p, f[0]), Snapshots(p, f[1..]), Extend(p, rel));
    }
  }

  lemma {:induction false} ScopeCountReach(p: Path, s: Scope, rel: seq<Clause>)
    requires rel != []
    ensures Count(ScopeSnapshots(p, s), Extend(p, rel)) == ScopeReach(s, rel)
    ensures CountWithin(ScopeSnapshots(p, s), Extend(p, rel)) == ScopeReachSize(s, rel)
    decreases s
  {
    var c := s.clause;
    var q := Extend(p, rel);
    var inner := Snapshots(Push(p, c), s.body);
    CountAppend([Push(p, c)], inner, q);
    ExtendAgainstChild(p, rel, c);
    if rel == [c] {
      CountOwnPath(Push(p, c), s.body);
      CountWithinEnclosing(Push(p, c), s.body, q);
    } else if rel[0] == c {
      CountReach(Push(p, c), s.body, rel[1..]);
    } else {
      CountOffLine(Push(p, c), s.body, q);
    }
  }
}
