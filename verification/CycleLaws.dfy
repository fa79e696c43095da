// Real cycles do not go unnoticed: what is listed can be ranked.
module CycleLaws {
  import opened Options
  import opened Dependencies
  import opened DependencyLaws
  import opened Reachability

  // Of the values on record, one for a defaulted input of p leads to q.
  ghost predicate Links(w: World, ctx: Context, p: string, q: string) {
    && p in w.queries
    && exists d ::
         && d in w.queries[p].inputs && d.default.Some?
         && d.name in ctx.inputs && QueryOf(w, ctx.inputs[d.name]) == Some(q)
  }

  // Listed queries in the order in which they were listed.
  datatype Ranking = Ranking(of: map<string, nat>, bound: nat)

  // A listed query only leads to queries that were listed before it.
  ghost predicate Ranked(w: World, ctx: Context, k: Ranking) {
    && (forall p :: p in ctx.queries ==> p in k.of && k.of[p] < k.bound)
    && (forall p, q :: p in ctx.queries && Links(w, ctx, p, q) ==> q in ctx.queries && k.of[q] < k.of[p])
  }

  ghost predicate StaysRanked(w: World, r: Result, k: Ranking) {
    r.Ok? ==> Ranked(w, r.ctx, k)
  }

  lemma ValueLeadsInside(w: World, ctx: Context, n: string, q: string)
    requires Closed(w, ctx) && n in ctx.inputs && QueryOf(w, ctx.inputs[n]) == Some(q)
    ensures q in ctx.queries
  {
    hide DefaultsResolved;
    assert RefersInside(ctx, ctx.inputs[n]);
  }

  // A new record makes no new link, as listed queries have all of theirs.
  lemma NoteRanked(w: World, ctx: Context, r: Result, name: string, v: Value, k: Ranking)
    requires Kept(w, ctx, r) && StaysRanked(w, r, k)
    requires r.Ok? ==> name !in r.ctx.inputs || r.ctx.inputs[name] == v
    ensures StaysRanked(w, Note(r, name, v), k)
  {
    hide Closed;
    if r.Ok? {
      var t := Note(r, name, v).ctx;
      forall p, q | p in t.queries && Links(w, t, p, q)
        ensures Links(w, r.ctx, p, q)
      {
        var d :| d in w.queries[p].inputs && d.default.Some? && d.name in t.inputs
                 && QueryOf(w, t.inputs[d.name]) == Some(q);
        DefaultIsResolved(w, r.ctx, p, d);
      }
      hide Links;
    }
  }

  // Inputs of one name have one value.
  ghost predicate OneValueEach(w: World, all: iset<Use>) {
    forall u, v :: u in all && v in all && u.def.name == v.def.name ==> ValueOf(w, u) == ValueOf(w, v)
  }

  ghost predicate Ready(w: World, all: iset<Use>, ctx: Context) {
    FollowClosed(w, all) && OneValueEach(w, all) && Closed(w, ctx) && Sound(w, all, ctx)
  }

  lemma SameRecord(w: World, all: iset<Use>, ctx: Context, u: Use)
    requires OneValueEach(w, all) && Sound(w, all, ctx) && u in all && u.def.name in ctx.inputs
    ensures ValueOf(w, u) == Some(ctx.inputs[u.def.name])
  {
    hide ValueOf, IsLed, IsValue;
    assert Recorded(w, all, u.def.name, ctx.inputs[u.def.name]);
  }

  lemma {:induction false} DefsRanked(w: World, all: iset<Use>, ctx: Context, defs: seq<InputDef>,
                                      given: map<string, Option<string>>, left: nat, k: Ranking) returns (t: Ranking)
    requires Ready(w, all, ctx) && Holds(defs, given, all) && Ranked(w, ctx, k)
    ensures StaysRanked(w, ResolveDefs(w, ctx, defs, given, left), t)
    decreases left, 4, |defs|
  {
    hide FollowClosed, OneValueEach, Closed, Sound, Ranked, ResolveInput, RawValue;
    t := k;
    if defs != [] {
      assert defs[0] in defs;
      assert Holds(defs[1..], given, all);
      if defs[0].name in ctx.inputs || RawValue(defs[0], given).None? {
        t := DefsRanked(w, all, ctx, defs[1..], given, left, k);
      } else {
        var raw := RawValue(defs[0], given).value;
        InputKept(w, ctx, defs[0], raw, left);
        InputSound(w, all, ctx, Use(defs[0], raw), left);
        t := InputRanked(w, all, ctx, Use(defs[0], raw), left, k);
        var r := ResolveInput(w, ctx, defs[0], raw, left);
        if r.Ok? {
          t := DefsRanked(w, all, r.ctx, defs[1..], given, left, t);
        }
      }
    }
  }

  lemma {:induction false} InputRanked(w: World, all: iset<Use>, ctx: Context, u: Use, left: nat, k: Ranking)
    returns (t: Ranking)
    requires Ready(w, all, ctx) && Ranked(w, ctx, k) && u in all
    ensures StaysRanked(w, ResolveInput(w, ctx, u.def, u.raw, left), t)
    decreases left, 3, 0
  {
    hide FollowClosed, OneValueEach, Closed, Sound, Ranked, ResolveQuery, ResolveDataSource, ResolveReport,
         ResolveInput, ValueOf, Note;
    InputIs(w, ctx, u, left);
    t := k;
    if ValueOf(w, u).Some? {
      var v := ValueOf(w, u).value;
      match v {
        case SourceName(s) =>
          t := DataSourceRanked(w, all, ctx, s, u, left, k);
          DataSourceKept(w, ctx, s, left);
          DataSourceSound(w, all, ctx, s, u, left);
        case QueryName(s) =>
          t := QueryRanked(w, all, ctx, s, u, left, k);
          QueryKept(w, ctx, s, left);
          QuerySound(w, all, ctx, s, u, left);
        case ReportName(s) =>
          t := ReportRanked(w, all, ctx, s, u, left, k);
          ReportKept(w, ctx, s, left);
          ReportSound(w, all, ctx, s, u, left);
        case _ =>
      }
      var r := ResolveReference(w, ctx, v, left);
      if r.Ok? && u.def.name in r.ctx.inputs {
        SameRecord(w, all, r.ctx, u);
      }
      NoteRanked(w, ctx, r, u.def.name, v, t);
    }
  }

  lemma {:induction false} DataSourceRanked(w: World, all: iset<Use>, ctx: Context, s: string, u: Use, left: nat,
                                            k: Ranking) returns (t: Ranking)
    requires Ready(w, all, ctx) && Ranked(w, ctx, k) && u in all && ValueOf(w, u) == Some(SourceName(s))
    ensures StaysRanked(w, ResolveDataSource(w, ctx, s, left), t)
    decreases left, 2, 0
  {
    hide FollowClosed, OneValueEach, Closed, Sound, ResolveQuery, ValueOf;
    t := k;
    if s !in ctx.sources && s in w.sources && w.sources[s].view.Some? {
      t := QueryRanked(w, all, ctx, w.sources[s].view.value, u, left, k);
    }
  }

  lemma {:induction false} ReportRanked(w: World, all: iset<Use>, ctx: Context, s: string, u: Use, left: nat,
                                        k: Ranking) returns (t: Ranking)
    requires Ready(w, all, ctx) && Ranked(w, ctx, k) && u in all && ValueOf(w, u) == Some(ReportName(s))
    ensures StaysRanked(w, ResolveReport(w, ctx, s, left), t)
    decreases left, 2, 0
  {
    hide FollowClosed, OneValueEach, Closed, Sound, ResolveQuery, ValueOf;
    t := k;
    if s !in ctx.reports && s in w.reports {
      t := QueryRanked(w, all, ctx, w.reports[s].query, u, left, k);
    }
  }

  lemma {:induction false} QueryRanked(w: World, all: iset<Use>, ctx: Context, q: string, u: Use, left: nat,
                                       k: Ranking) returns (t: Ranking)
    requires Ready(w, all, ctx) && Ranked(w, ctx, k) && u in all && LeadsTo(w, u, q)
    ensures StaysRanked(w, ResolveQuery(w, ctx, q, left), t)
    decreases left, 1, 0
  {
    hide Closed, Sound, ResolveDefs, LeadsTo, Ranked, OneValueEach, FollowClosed;
    t := k;
    if q !in ctx.queries && q in w.queries && left > 0 {
      var defs := w.queries[q].inputs;
      OwnDefaultsHeld(w, all, u, q);
      DefsKept(w, ctx, defs, Given([]), left - 1);
      t := DefsRanked(w, all, ctx, defs, Given([]), left - 1, k);
      var r := ResolveDefs(w, ctx, defs, Given([]), left - 1);
      if r.Ok? && q !in r.ctx.queries {
        QueryAdded(w, r.ctx, q, t);
        t := Ranking(t.of[q := t.bound], t.bound + 1);
      } else if r.Ok? {
        assert r.ctx.(queries := r.ctx.queries + {q}) == r.ctx;
      }
    }
  }

  lemma OwnDefaultsHeld(w: World, all: iset<Use>, u: Use, q: string)
    requires FollowClosed(w, all) && u in all && LeadsTo(w, u, q) && q in w.queries
    ensures Holds(w.queries[q].inputs, Given([]), all)
  {
    hide LeadsTo;
    forall d | d in w.queries[q].inputs && d.default.Some?
      ensures Use(d, d.default.value) in all
    {
      assert Follows(w, u, Use(d, d.default.value));
    }
  }

  // A query that is listed now comes after all that it leads to.
  lemma QueryAdded(w: World, ctx: Context, q: string, k: Ranking)
    requires Closed(w, ctx) && Ranked(w, ctx, k) && q !in ctx.queries
    ensures Ranked(w, ctx.(queries := ctx.queries + {q}), Ranking(k.of[q := k.bound], k.bound + 1))
  {
    hide Closed;
    var t := ctx.(queries := ctx.queries + {q});
    forall p, r | p in t.queries && Links(w, t, p, r)
      ensures Links(w, ctx, p, r) && r in ctx.queries
    {
      var d :| d in w.queries[p].inputs && d.default.Some? && d.name in t.inputs
               && QueryOf(w, t.inputs[d.name]) == Some(r);
      ValueLeadsInside(w, ctx, d.name, r);
    }
    hide Links;
  }

  // ------------------------------------------------------------------ theorems

  // Through one of its defaults the query p leads to q.
  ghost predicate StepTo(w: World, p: string, q: string) {
    && p in w.queries
    && exists d :: d in w.queries[p].inputs && d.default.Some? && LeadsTo(w, Use(d, d.default.value), q)
  }

  // p leads to q over k queries in between.
  ghost predicate Path(w: World, p: string, q: string, k: nat)
    decreases k
  {
    if k == 0 then StepTo(w, p, q) else exists m :: StepTo(w, p, m) && Path(w, m, q, k - 1)
  }

  // The listed queries can be ranked so that each leads only to lower ones.
  lemma ResultIsRanked(w: World, defs: seq<InputDef>, vals: seq<InputVal>) returns (k: Ranking)
    requires Resolve(w, defs, vals).Ok? && Consistent(w, defs, Given(vals))
    ensures Ranked(w, Resolve(w, defs, vals).ctx, k)
  {
    hide Resolve, ResolveDefs, Closed, Sound, FollowClosed, Holds, Ranked, Reachable, ValueOf;
    var all := AllReachable(w, defs, Given(vals));
    ResolveIsDefs(w, defs, vals);
    EmptyIsClosed(w);
    EmptyIsSound(w, all);
    EmptyIsRanked(w);
    ReachableIsClosed(w, defs, Given(vals));
    k := DefsRanked(w, all, EMPTY, defs, Given(vals), MAX_DEPTH - 1, Ranking(map[], 0));
  }

  lemma EmptyIsRanked(w: World)
    ensures Ranked(w, EMPTY, Ranking(map[], 0))
  {
  }

  lemma {:induction false} PathGoesDown(w: World, defs: seq<InputDef>, vals: seq<InputVal>, k: Ranking, p: string,
                                        q: string, n: nat)
    requires Resolve(w, defs, vals).Ok? && Consistent(w, defs, Given(vals))
    requires Ranked(w, Resolve(w, defs, vals).ctx, k) && p in Resolve(w, defs, vals).ctx.queries && Path(w, p, q, n)
    ensures q in Resolve(w, defs, vals).ctx.queries && k.of[q] < k.of[p]
    decreases n
  {
    hide Resolve, Consistent, LeadsTo, StepTo;
    var ctx := Resolve(w, defs, vals).ctx;
    if n == 0 {
      StepLinks(w, defs, vals, p, q);
    } else {
      var m :| StepTo(w, p, m) && Path(w, m, q, n - 1);
      StepLinks(w, defs, vals, p, m);
      PathGoesDown(w, defs, vals, k, m, q, n - 1);
    }
  }

  lemma StepLinks(w: World, defs: seq<InputDef>, vals: seq<InputVal>, p: string, q: string)
    requires Resolve(w, defs, vals).Ok? && Consistent(w, defs, Given(vals))
    requires p in Resolve(w, defs, vals).ctx.queries && StepTo(w, p, q)
    ensures Links(w, Resolve(w, defs, vals).ctx, p, q)
  {
    hide Resolve, Consistent, ValueOf;
    var d :| d in w.queries[p].inputs && d.default.Some? && LeadsTo(w, Use(d, d.default.value), q);
    ReferencesAreListed(w, defs, vals, p, d);
  }

  // A real cycle is always reported: without a clash of names, a resolution in
  // which some query that is reached leads back to itself does not succeed.
  lemma CyclesAreReported(w: World, defs: seq<InputDef>, vals: seq<InputVal>, u: Use, q: string, n: nat)
    requires Consistent(w, defs, Given(vals)) && Reachable(w, defs, Given(vals), u) && LeadsTo(w, u, q)
    requires Path(w, q, q, n)
    ensures Resolve(w, defs, vals).Err?
  {
    hide Resolve, Consistent, LeadsTo, Reachable, Path, Sound, Closed;
    if Resolve(w, defs, vals).Ok? {
      ListsAreExact(w, defs, vals);
      assert IsLed(w, AllReachable(w, defs, Given(vals)), q);
      var k := ResultIsRanked(w, defs, vals);
      PathGoesDown(w, defs, vals, k, q, q, n);
      assert false;
    }
  }
}
