/**
 * Clause paths: the stack of clause tags that are open at a point of a
 * render. A path is kept innermost tag on top; listeners see it outermost
 * tag first, as a list (ToSeq).
 */
module Paths {
  import opened Clauses

  datatype Path = Root | Push(outer: Path, top: Clause)

  function Depth(p: Path): nat
  {
    match p
    case Root => 0
    case Push(o, _) => 1 + Depth(o)
  }

  /** The path as a list of tags, outermost first. */
  function ToSeq(p: Path): (s: seq<Clause>)
    ensures |s| == Depth(p)
    ensures p.Push? ==> |s| > 0 && s[|s| - 1] == p.top
  {
    match p
    case Root => []
    case Push(o, c) => ToSeq(o) + [c]
  }

  /** The path `p` with the tags of `s` pushed on it, first tag first. */
  function Extend(p: Path, s: seq<Clause>): (r: Path)
    ensures Depth(r) == Depth(p) + |s|
    decreases s
  {
    if s == [] then p else Extend(Push(p, s[0]), s[1..])
  }

  /** The path `p` with the tags `s[i..]` pushed on it, `s[i]` first. */
  function PushFrom(p: Path, s: seq<Clause>, i: nat): Path
    requires i <= |s|
    decreases |s| - i
  {
    if i == |s| then p else PushFrom(Push(p, s[i]), s, i + 1)
  }

  /** The path whose list of tags, outermost first, is `s`. */
  function FromSeq(s: seq<Clause>): Path
  {
    PushFrom(Root, s, 0)
  }

  lemma {:induction false} PushFromExtend(p: Path, s: seq<Clause>, i: nat)
    requires i <= |s|
    ensures PushFrom(p, s, i) == Extend(p, s[i..])
    decreases |s| - i
  {
    if i < |s| {
      PushFromExtend(Push(p, s[i]), s, i + 1);
      assert s[i..][1..] == s[i + 1..];
    }
  }

  lemma {:induction false} ToSeqExtend(p: Path, s: seq<Clause>)
    ensures ToSeq(Extend(p, s)) == ToSeq(p) + s
    decreases s
  {
    if s != [] {
      ToSeqExtend(Push(p, s[0]), s[1..]);
      calc {
        ToSeq(Extend(p, s));
        ToSeq(Extend(Push(p, s[0]), s[1..]));
        ToSeq(Push(p, s[0])) + s[1..];
        (ToSeq(p) + [s[0]]) + s[1..];
        { assert [s[0]] + s[1..] == s; }
        ToSeq(p) + s;
      }
    }
  }

  lemma {:induction false} ExtendSnoc(p: Path, s: seq<Clause>, c: Clause)
    ensures Extend(p, s + [c]) == Push(Extend(p, s), c)
    decreases s
  {
    if s == [] {
      assert s + [c] == [c];
    } else {
      assert (s + [c])[1..] == s[1..] + [c];
      ExtendSnoc(Push(p, s[0]), s[1..], c);
    }
  }

  /** Reading a path as a list and building it back gives the same path. */
  lemma {:induction false} FromSeqToSeq(p: Path)
    ensures FromSeq(ToSeq(p)) == p
  {
    match p
    case Root =>
    case Push(o, c) =>
      FromSeqToSeq(o);
      PushFromExtend(Root, ToSeq(o), 0);
      PushFromExtend(Root, ToSeq(p), 0);
      assert ToSeq(o)[0..] == ToSeq(o) && ToSeq(p)[0..] == ToSeq(p);
      ExtendSnoc(Root, ToSeq(o), c);
  }

  lemma ToSeqFromSeq(s: seq<Clause>)
    ensures ToSeq(FromSeq(s)) == s
  {
    PushFromExtend(Root, s, 0);
    assert s[0..] == s;
    ToSeqExtend(Root, s);
  }

  lemma ToSeqInjective(a: Path, b: Path)
    requires ToSeq(a) == ToSeq(b)
    ensures a == b
  {
    FromSeqToSeq(a);
    FromSeqToSeq(b);
  }

  /** `a` is `b` itself or one of the paths `b` was pushed onto. */
  predicate Encloses(a: Path, b: Path)
    decreases b
  {
    a == b || (b.Push? && Encloses(a, b.outer))
  }

  lemma {:induction false} EnclosesDepth(a: Path, b: Path)
    requires Encloses(a, b)
    ensures Depth(a) <= Depth(b)
    ensures Depth(a) == Depth(b) ==> a == b
    decreases b
  {
    if a != b {
      EnclosesDepth(a, b.outer);
    }
  }

  lemma {:induction false} EnclosesTransitive(a: Path, b: Path, c: Path)
    requires Encloses(a, b) && Encloses(b, c)
    ensures Encloses(a, c)
    decreases c
  {
    if b != c {
      EnclosesTransitive(a, b, c.outer);
    }
  }

  /** The paths enclosing one path form a chain. */
  lemma {:induction false} EnclosesChain(a: Path, b: Path, c: Path)
    requires Encloses(a, c) && Encloses(b, c)
    ensures Encloses(a, b) || Encloses(b, a)
    decreases c
  {
    if a != c && b != c {
      EnclosesChain(a, b, c.outer);
    }
  }

  /** A path encloses another exactly when its list of tags is a prefix of the other's. */
  lemma {:induction false} EnclosesIsPrefix(a: Path, b: Path)
    ensures Encloses(a, b) <==> ToSeq(a) <= ToSeq(b)
    decreases b
  {
    if b.Push? {
      EnclosesIsPrefix(a, b.outer);
      var sa, sb := ToSeq(a), ToSeq(b);
      if sa <= sb && sa != sb {
        assert sa <= sb[..|sb| - 1];
      }
      if sa == sb {
        ToSeqInjective(a, b);
      }
    } else if ToSeq(a) <= ToSeq(b) {
      ToSeqInjective(a, b);
    }
  }

  /** `q` with the root it was built on replaced by `base`: `q` rendered further inside. */
  function Rebase(q: Path, base: Path): Path
  {
    match q
    case Root => base
    case Push(o, c) => Push(Rebase(o, base), c)
  }

  lemma {:induction false} ToSeqRebase(q: Path, base: Path)
    ensures ToSeq(Rebase(q, base)) == ToSeq(base) + ToSeq(q)
  {
    match q
    case Root =>
    case Push(o, c) =>
      ToSeqRebase(o, base);
      assert ToSeq(base) + (ToSeq(o) + [c]) == (ToSeq(base) + ToSeq(o)) + [c];
  }

  function RebaseAll(s: seq<Path>, base: Path): seq<Path>
  {
    seq(|s|, k requires 0 <= k < |s| => Rebase(s[k], base))
  }

  lemma RebaseAllAppend(a: seq<Path>, b: seq<Path>, base: Path)
    ensures RebaseAll(a + b, base) == RebaseAll(a, base) + RebaseAll(b, base)
  {
  }

  /** The lists a listener records, one per path. */
  function Lists(ps: seq<Path>): seq<seq<Clause>>
  {
    seq(|ps|, k requires 0 <= k < |ps| => ToSeq(ps[k]))
  }

  lemma ListsAppend(a: seq<Path>, b: seq<Path>)
    ensures Lists(a + b) == Lists(a) + Lists(b)
  {
  }

  /** Each list of `ls` with the tags `pre` in front. */
  function Prefixed(pre: seq<Clause>, ls: seq<seq<Clause>>): seq<seq<Clause>>
  {
    seq(|ls|, k requires 0 <= k < |ls| => pre + ls[k])
  }

  lemma PrefixedAppend(pre: seq<Clause>, a: seq<seq<Clause>>, b: seq<seq<Clause>>)
    ensures Prefixed(pre, a + b) == Prefixed(pre, a) + Prefixed(pre, b)
  {
  }

  /** Rendering further inside shows every list with the tags of `base` in front. */
  lemma ListsRebaseAll(s: seq<Path>, base: Path)
    ensures Lists(RebaseAll(s, base)) == Prefixed(ToSeq(base), Lists(s))
  {
    forall k | 0 <= k < |s|
      ensures Lists(RebaseAll(s, base))[k] == Prefixed(ToSeq(base), Lists(s))[k]
    {
      ToSeqRebase(s[k], base);
    }
  }
}
