// What a resolution guarantees: a closed result, and no false alarm of a cycle.
module DependencyLaws {
  import opened Options
  import opened Dependencies

  // Nothing is taken off the lists, and a resolved input never changes.
  ghost predicate Grows(c: Context, d: Context) {
    && c.queries <= d.queries && c.sources <= d.sources && c.reports <= d.reports
    && forall n :: n in c.inputs ==> n in d.inputs && d.inputs[n] == c.inputs[n]
  }

  // Every input of the definitions that has a default is resolved.
  ghost predicate DefaultsResolved(defs: seq<InputDef>, ctx: Context) {
    forall i :: 0 <= i < |defs| && defs[i].default.Some? ==> defs[i].name in ctx.inputs
  }

  ghost predicate RefersInside(ctx: Context, v: Value) {
    match v
    case SourceName(s) => s in ctx.sources
    case QueryName(s) => s in ctx.queries
    case ReportName(s) => s in ctx.reports
    case _ => true
  }

  // The context is closed: the query of every listed report and of every listed
  // view is listed, every defaulted input of every listed query is resolved, and
  // every resolved reference is listed.
  ghost predicate Closed(w: World, ctx: Context) {
    && (forall r :: r in ctx.reports ==> r in w.reports && w.reports[r].query in ctx.queries)
    && (forall s :: s in ctx.sources ==>
          s in w.sources && (w.sources[s].view.Some? ==> w.sources[s].view.value in ctx.queries))
    && (forall q :: q in ctx.queries ==> q in w.queries && DefaultsResolved(w.queries[q].inputs, ctx))
    && (forall n :: n in ctx.inputs ==> RefersInside(ctx, ctx.inputs[n]))
  }

  // A step from c that succeeded with d kept the context closed.
  ghost predicate Kept(w: World, c: Context, r: Result) {
    r.Ok? ==> Closed(w, r.ctx) && Grows(c, r.ctx)
  }

  // ------------------------------------------------------------------- closure

  lemma {:induction false} DependenciesKept(w: World, ctx: Context, defs: seq<InputDef>, vals: seq<InputVal>, left: nat)
    requires Closed(w, ctx)
    ensures var r := ResolveDependencies(w, ctx, defs, vals, left);
      Kept(w, ctx, r) && (r.Ok? ==> AllResolved(defs, Given(vals), r.ctx))
    decreases left, 0, 0
  {
    hide Closed, ResolveDefs, AllResolved;
    if left > 0 {
      DefsKept(w, ctx, defs, Given(vals), left - 1);
    }
  }

  // Every input that has a value is resolved.
  ghost predicate AllResolved(defs: seq<InputDef>, given: map<string, Option<string>>, ctx: Context) {
    forall i :: 0 <= i < |defs| && RawValue(defs[i], given).Some? ==> defs[i].name in ctx.inputs
  }

  lemma {:induction false} DefsKept(w: World, ctx: Context, defs: seq<InputDef>, given: map<string, Option<string>>,
                                    left: nat)
    requires Closed(w, ctx)
    ensures var r := ResolveDefs(w, ctx, defs, given, left);
      Kept(w, ctx, r) && (r.Ok? ==> AllResolved(defs, given, r.ctx))
    decreases left, 4, |defs|
  {
    hide Closed, ResolveInput, RawValue;
    if defs != [] {
      if defs[0].name in ctx.inputs || RawValue(defs[0], given).None? {
        DefsKept(w, ctx, defs[1..], given, left);
      } else {
        var raw := RawValue(defs[0], given).value;
        InputKept(w, ctx, defs[0], raw, left);
        var r := ResolveInput(w, ctx, defs[0], raw, left);
        if r.Ok? {
          DefsKept(w, r.ctx, defs[1..], given, left);
        }
      }
    }
  }

  lemma NoteKept(w: World, c: Context, r: Result, name: string, v: Value)
    requires Kept(w, c, r) && (r.Ok? ==> RefersInside(r.ctx, v)) && name !in c.inputs
    ensures Kept(w, c, Note(r, name, v)) && (r.Ok? ==> name in Note(r, name, v).ctx.inputs)
  {
    if r.Ok? {
      var d := Note(r, name, v).ctx;
      forall n | n in d.inputs
        ensures RefersInside(d, d.inputs[n])
      {
        assert n != name ==> RefersInside(r.ctx, r.ctx.inputs[n]);
      }
    }
  }

  lemma {:induction false} InputKept(w: World, ctx: Context, d: InputDef, raw: string, left: nat)
    requires Closed(w, ctx) && d.name !in ctx.inputs
    ensures var r := ResolveInput(w, ctx, d, raw, left);
      Kept(w, ctx, r) && (r.Ok? ==> d.name in r.ctx.inputs)
    decreases left, 3, 0
  {
    hide Closed, ResolveQuery, ResolveReport, ResolveDataSource, KindOf, Note;
    var s := w.asString(raw);
    match KindOf(d) {
      case StringKind =>
        if s.Some? {
          NoteKept(w, ctx, Ok(ctx), d.name, Text(s.value));
        }
      case TimeKind =>
        if w.asTime(raw).Some? {
          NoteKept(w, ctx, Ok(ctx), d.name, Time(w.asTime(raw).value));
        }
      case IntKind =>
        if w.asInt(raw).Some? {
          NoteKept(w, ctx, Ok(ctx), d.name, Number(w.asInt(raw).value));
        }
      case SourceKind =>
        if s.Some? {
          DataSourceKept(w, ctx, s.value, left);
          NoteKept(w, ctx, ResolveDataSource(w, ctx, s.value, left), d.name, SourceName(s.value));
        }
      case QueryKind =>
        if s.Some? {
          QueryKept(w, ctx, s.value, left);
          NoteKept(w, ctx, ResolveQuery(w, ctx, s.value, left), d.name, QueryName(s.value));
        }
      case ReportKind =>
        if s.Some? {
          ReportKept(w, ctx, s.value, left);
          NoteKept(w, ctx, ResolveReport(w, ctx, s.value, left), d.name, ReportName(s.value));
        }
      case OtherKind =>
    }
    NoteErr(ResolveDataSource(w, ctx, if s.Some? then s.value else "", left), d.name);
    NoteErr(ResolveQuery(w, ctx, if s.Some? then s.value else "", left), d.name);
    NoteErr(ResolveReport(w, ctx, if s.Some? then s.value else "", left), d.name);
  }

  lemma NoteErr(r: Result, name: string)
    ensures r.Err? ==> forall v :: Note(r, name, v) == r
  {
  }

  lemma {:induction false} DataSourceKept(w: World, ctx: Context, name: string, left: nat)
    requires Closed(w, ctx)
    ensures var r := ResolveDataSource(w, ctx, name, left);
      Kept(w, ctx, r) && (r.Ok? ==> name in r.ctx.sources)
    decreases left, 2, 0
  {
    hide ResolveQuery;
    if name !in ctx.sources && name in w.sources && w.sources[name].view.Some? {
      QueryKept(w, ctx, w.sources[name].view.value, left);
    }
  }

  lemma {:induction false} ReportKept(w: World, ctx: Context, name: string, left: nat)
    requires Closed(w, ctx)
    ensures var r := ResolveReport(w, ctx, name, left);
      Kept(w, ctx, r) && (r.Ok? ==> name in r.ctx.reports)
    decreases left, 2, 0
  {
    hide ResolveQuery;
    if name !in ctx.reports && name in w.reports {
      QueryKept(w, ctx, w.reports[name].query, left);
    }
  }

  lemma {:induction false} QueryKept(w: World, ctx: Context, name: string, left: nat)
    requires Closed(w, ctx)
    ensures var r := ResolveQuery(w, ctx, name, left);
      Kept(w, ctx, r) && (r.Ok? ==> name in r.ctx.queries)
    decreases left, 1, 0
  {
    hide ResolveDependencies;
    if name !in ctx.queries && name in w.queries {
      DependenciesKept(w, ctx, w.queries[name].inputs, [], left);
    }
  }

  lemma EmptyIsClosed(w: World)
    ensures Closed(w, EMPTY)
  {
  }

  // ------------------------------------------------------------------ rendering

  // RenderQuery: the required inputs that have no value.
  function MissingInputs(defs: seq<InputDef>, ctx: Context): set<string> {
    set d | d in defs && d.required && d.name !in ctx.inputs :: d.name
  }

  // On success the result is closed, and neither the report's own query nor any
  // listed query is ever missing a required input that has a default.
  lemma ResolutionIsClosed(w: World, defs: seq<InputDef>, vals: seq<InputVal>)
    requires Resolve(w, defs, vals).Ok?
    ensures var ctx := Resolve(w, defs, vals).ctx;
      && Closed(w, ctx)
      && (forall d :: d in defs && d.default.Some? ==> d.name !in MissingInputs(defs, ctx))
      && (forall q, d :: q in ctx.queries && d in w.queries[q].inputs && d.default.Some? ==>
            d.name !in MissingInputs(w.queries[q].inputs, ctx))
  {
    hide ResolveDependencies;
    assert Closed(w, EMPTY);
    DependenciesKept(w, EMPTY, defs, vals, MAX_DEPTH);
    var ctx := Resolve(w, defs, vals).ctx;
    forall d | d in defs && d.default.Some?
      ensures d.name in ctx.inputs
    {
      assert RawValue(d, Given(vals)).Some?;
    }
  }

  // --------------------------------------------------------------------- cycles

  // The query that an input leads to.
  function Leads(w: World, d: InputDef, raw: string): Option<string> {
    if w.asString(raw).None? then None
    else
      var name := w.asString(raw).value;
      match KindOf(d)
      case QueryKind => Some(name)
      case ReportKind => if name in w.reports then Some(w.reports[name].query) else None
      case SourceKind => if name in w.sources then w.sources[name].view else None
      case _ => None
  }

  // From these inputs a chain of k queries can be followed, each reached from a
  // default of the one before.
  ghost predicate Chain(w: World, defs: seq<InputDef>, given: map<string, Option<string>>, k: nat)
    decreases k, 0
  {
    k == 0
    || exists i ::
         0 <= i < |defs| && RawValue(defs[i], given).Some? && LinksOn(w, defs[i], RawValue(defs[i], given).value, k)
  }

  ghost predicate LinksOn(w: World, d: InputDef, raw: string, k: nat)
    requires k > 0
    decreases k - 1, 1
  {
    var q := Leads(w, d, raw);
    q.Some? && q.value in w.queries && Chain(w, w.queries[q.value].inputs, map[], k - 1)
  }

  lemma {:induction false} DependenciesCycle(w: World, ctx: Context, defs: seq<InputDef>, vals: seq<InputVal>,
                                             left: nat)
    requires ResolveDependencies(w, ctx, defs, vals, left) == Err(Cycle)
    ensures Chain(w, defs, Given(vals), left)
    decreases left, 0, 0
  {
    hide LinksOn, ResolveDefs;
    if left > 0 {
      var i := DefsCycle(w, ctx, defs, Given(vals), left - 1);
    }
  }

  lemma {:induction false} DefsCycle(w: World, ctx: Context, defs: seq<InputDef>, given: map<string, Option<string>>,
                                     left: nat) returns (i: nat)
    requires ResolveDefs(w, ctx, defs, given, left) == Err(Cycle)
    ensures i < |defs| && RawValue(defs[i], given).Some?
            && LinksOn(w, defs[i], RawValue(defs[i], given).value, left + 1)
    decreases left, 4, |defs|
  {
    hide LinksOn, ResolveInput, RawValue;
    if defs[0].name in ctx.inputs || RawValue(defs[0], given).None? {
      i := DefsCycle(w, ctx, defs[1..], given, left);
      i := i + 1;
    } else {
      var raw := RawValue(defs[0], given).value;
      var r := ResolveInput(w, ctx, defs[0], raw, left);
      if r.Err? {
        InputCycle(w, ctx, defs[0], raw, left);
        i := 0;
      } else {
        i := DefsCycle(w, r.ctx, defs[1..], given, left);
        i := i + 1;
      }
    }
  }

  lemma {:induction false} InputCycle(w: World, ctx: Context, d: InputDef, raw: string, left: nat)
    requires ResolveInput(w, ctx, d, raw, left) == Err(Cycle)
    ensures LinksOn(w, d, raw, left + 1)
    decreases left, 3, 0
  {
    hide ResolveQuery, KindOf, Chain;
    var name := w.asString(raw).value;
    match KindOf(d) {
      case SourceKind => QueryCycle(w, ctx, w.sources[name].view.value, left);
      case QueryKind => QueryCycle(w, ctx, name, left);
      case ReportKind => QueryCycle(w, ctx, w.reports[name].query, left);
      case _ =>
    }
  }

  lemma {:induction false} QueryCycle(w: World, ctx: Context, name: string, left: nat)
    requires ResolveQuery(w, ctx, name, left) == Err(Cycle)
    ensures name in w.queries && Chain(w, w.queries[name].inputs, map[], left)
    decreases left, 1, 0
  {
    hide ResolveDependencies, Chain;
    DependenciesCycle(w, ctx, w.queries[name].inputs, [], left);
  }

  // A cycle is reported only if there is a chain of fifty queries to follow; so
  // never while every chain has at most forty-nine. Being total functions, the
  // resolvers end on every graph, cyclic or not.
  lemma NoFalseCycle(w: World, defs: seq<InputDef>, vals: seq<InputVal>)
    requires !Chain(w, defs, Given(vals), 50)
    ensures Resolve(w, defs, vals) != Err(Cycle)
  {
    hide ResolveDependencies, Chain;
    if Resolve(w, defs, vals) == Err(Cycle) {
      DependenciesCycle(w, EMPTY, defs, vals, MAX_DEPTH);
    }
  }
}
