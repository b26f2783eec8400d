/**
 * Event logs: the clause-start paths a listener has been shown, oldest
 * first, as a snoc list. Logs compare structurally, which makes a log of a
 * concrete render cheap to state and to check; Entries turns a log into the
 * sequence the rest of the model works with.
 */
module Logs {
  import opened Clauses
  import opened Paths
  import opened Dialects

  datatype Log = Empty | Snoc(init: Log, last: Path)
  {
    /** This log followed by the path whose tags, outermost first, are `s`. */
    function Then(s: seq<Clause>): Log
    {
      Snoc(this, FromSeq(s))
    }
  }

  /** The paths of a log, oldest first. */
  function Entries(l: Log): seq<Path>
  {
    match l
    case Empty => []
    case Snoc(init, x) => Entries(init) + [x]
  }

  /** `x` is below the root and has a tag on top that `d` can render. */
  predicate Renderable(x: Path, d: Dialect)
  {
    x.Push? && Supported(d, x.top)
  }

  /** Every path of the log is renderable in `d`. */
  predicate AllSupported(l: Log, d: Dialect)
  {
    match l
    case Empty => true
    case Snoc(init, x) => Renderable(x, d) && AllSupported(init, d)
  }

  lemma {:induction false} AllSupportedEntries(l: Log, d: Dialect)
    ensures AllSupported(l, d) ==> forall k :: 0 <= k < |Entries(l)| ==> Renderable(Entries(l)[k], d)
    ensures (forall k :: 0 <= k < |Entries(l)| ==> Renderable(Entries(l)[k], d)) ==> AllSupported(l, d)
  {
    match l
    case Empty =>
    case Snoc(init, x) =>
      AllSupportedEntries(init, d);
      var e := Entries(l);
      var ei := Entries(init);
      assert e == ei + [x];
      if forall k :: 0 <= k < |e| ==> Renderable(e[k], d) {
        assert e[|ei|] == x;
        forall k | 0 <= k < |ei| ensures Renderable(ei[k], d) {
          assert e[k] == ei[k];
        }
      }
      if AllSupported(l, d) {
        forall k | 0 <= k < |e| ensures Renderable(e[k], d) {
          if k < |ei| {
            assert e[k] == ei[k];
          } else {
            assert e[k] == x;
          }
        }
      }
  }
}
