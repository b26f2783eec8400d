/**
 * The render context: it keeps the stack of open clause tags and tells its
 * listener about every clause region it opens and closes while it renders a
 * query part.
 */
module Rendering {
  import opened Wrappers
  import opened Clauses
  import opened Paths
  import opened Scopes
  import opened Dialects
  import opened Ast
  import opened Plan
  import opened Listeners
  import opened Support

  /** A render either completes or stops at a clause the dialect cannot express. */
  datatype RenderResult = Rendered | Unsupported(clause: Clause, dialect: Dialect)

  class RenderContext {
    var settings: Settings
    /** The open clause tags; Root between renders. */
    var path: Path
    const listener: SimpleListener

    /** A context for the default dialect, rendering references only, notifying `listener`. */
    constructor(listener: SimpleListener)
      ensures settings == Settings(Default, false, false)
      ensures path == Root
      ensures this.listener == listener
    {
      settings := Settings(Default, false, false);
      path := Root;
      this.listener := listener;
    }

    method SetDialect(d: Dialect)
      modifies this
      ensures settings == old(settings).(dialect := d)
      ensures path == old(path)
    {
      settings := settings.(dialect := d);
    }

    /** In declare mode an aliased table renders its declaration, otherwise its alias. */
    method DeclareTables(b: bool)
      modifies this
      ensures settings == old(settings).(declareTables := b)
      ensures path == old(path)
    {
      settings := settings.(declareTables := b);
    }

    method DeclareFields(b: bool)
      modifies this
      ensures settings == old(settings).(declareFields := b)
      ensures path == old(path)
    {
      settings := settings.(declareFields := b);
    }

    function Context(): VisitContext
      reads this
    {
      VisitContext(ToSeq(path), settings.dialect)
    }

    /** Open a clause region: push its tag, then tell the listener. */
    method Start(c: Clause)
      modifies this, listener
      ensures path == Push(old(path), c)
      ensures settings == old(settings)
      ensures listener.clauses == old(listener.clauses) + [ToSeq(path)]
    {
      path := Push(path, c);
      listener.ClauseStart(Context());
    }

    /** Close the innermost region: tell the listener, then pop its tag. */
    method End()
      requires path.Push?
      modifies this
      ensures path == old(path).outer
      ensures settings == old(settings)
      ensures listener.clauses == old(listener.clauses)
    {
      listener.ClauseEnd(Context());
      path := path.outer;
    }

    method VisitScope(s: Scope)
      modifies this, listener
      ensures path == old(path) && settings == old(settings)
      ensures listener.clauses == old(listener.clauses) + Lists(ScopeSnapshots(old(path), s))
      decreases s
    {
      ghost var p := path;
      Start(s.clause);
      VisitForest(s.body);
      End();
      ListsAppend([Push(p, s.clause)], Snapshots(Push(p, s.clause), s.body));
    }

    /** Render the regions of `f` one after the other, each with the current path open. */
    method VisitForest(f: seq<Scope>)
      modifies this, listener
      ensures path == old(path) && settings == old(settings)
      ensures listener.clauses == old(listener.clauses) + Lists(Snapshots(old(path), f))
      decreases f
    {
      var i := 0;
      while i < |f|
        invariant 0 <= i <= |f|
        invariant path == old(path) && settings == old(settings)
        invariant listener.clauses == old(listener.clauses) + Lists(Snapshots(path, f[..i]))
      {
        VisitScope(f[i]);
        SnapshotsAppend(path, f[..i], [f[i]]);
        assert f[..i + 1] == f[..i] + [f[i]];
        ListsAppend(Snapshots(path, f[..i]), ScopeSnapshots(path, f[i]));
        i := i + 1;
      }
      assert f[..i] == f;
    }

    /**
     * Render a query part. When its plan holds a clause the dialect cannot
     * express, nothing is rendered and the first such clause is reported;
     * otherwise the listener has seen one clauseStart per region of the plan.
     */
    method Render(part: QueryPart) returns (r: RenderResult)
      modifies this, listener
      ensures path == old(path) && settings == old(settings)
      ensures r == Rendered <==> PartRenderable(part, settings)
      ensures r.Rendered? ==>
        listener.clauses == old(listener.clauses) + Lists(ScopeSnapshots(old(path), PartScope(part, settings)))
      ensures r.Unsupported? ==>
        r.dialect == settings.dialect && listener.clauses == old(listener.clauses) &&
        exists k :: 0 <= k < |ScopePreorder(PartScope(part, settings))| &&
          FirstUnsupportedAt(ScopePreorder(PartScope(part, settings)), settings.dialect, k) &&
          ScopePreorder(PartScope(part, settings))[k] == r.clause
    {
      var plan := PartScope(part, settings);
      PartSupported(part, settings);
      var missing := FirstUnsupported(ScopePreorder(plan), settings.dialect);
      if missing.Some? {
        return Unsupported(missing.value, settings.dialect);
      }
      listener.VisitStart(Context());
      VisitScope(plan);
      listener.VisitEnd(Context());
      return Rendered;
    }
  }
}
