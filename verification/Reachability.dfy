// Which inputs a resolution comes by, and when it lists everything they refer to.
module Reachability {
  import opened Options
  import opened Dependencies
  import opened DependencyLaws

  // An input definition together with the raw value it is given.
  datatype Use = Use(def: InputDef, raw: string)

  // The value an input would be recorded with.
  function ValueOf(w: World, u: Use): Option<Value> {
    var s := w.asString(u.raw);
    match KindOf(u.def)
    case StringKind => if s.None? then None else Some(Text(s.value))
    case TimeKind => if w.asTime(u.raw).None? then None else Some(Time(w.asTime(u.raw).value))
    case IntKind => if w.asInt(u.raw).None? then None else Some(Number(w.asInt(u.raw).value))
    case SourceKind => if s.None? then None else Some(SourceName(s.value))
    case QueryKind => if s.None? then None else Some(QueryName(s.value))
    case ReportKind => if s.None? then None else Some(ReportName(s.value))
    case OtherKind => None
  }

  // The query that a value leads to.
  function QueryOf(w: World, v: Value): Option<string> {
    match v
    case QueryName(s) => Some(s)
    case ReportName(s) => if s in w.reports then Some(w.reports[s].query) else None
    case SourceName(s) => if s in w.sources then w.sources[s].view else None
    case _ => None
  }

  predicate LeadsTo(w: World, u: Use, q: string) {
    ValueOf(w, u).Some? && QueryOf(w, ValueOf(w, u).value) == Some(q)
  }

  // The query that u leads to has v among its defaulted inputs.
  ghost predicate Follows(w: World, u: Use, v: Use) {
    exists q ::
      LeadsTo(w, u, q) && q in w.queries && v.def in w.queries[q].inputs && v.def.default == Some(v.raw)
  }

  // v is one of the inputs, or is reached from one through k queries.
  ghost predicate Reached(w: World, defs: seq<InputDef>, given: map<string, Option<string>>, v: Use, k: nat)
    decreases k
  {
    if k == 0 then v.def in defs && RawValue(v.def, given) == Some(v.raw)
    else exists u :: Reached(w, defs, given, u, k - 1) && Follows(w, u, v)
  }

  ghost predicate Reachable(w: World, defs: seq<InputDef>, given: map<string, Option<string>>, v: Use) {
    exists k: nat :: Reached(w, defs, given, v, k)
  }

  ghost function AllReachable(w: World, defs: seq<InputDef>, given: map<string, Option<string>>): iset<Use> {
    iset v | Reachable(w, defs, given, v)
  }

  // ------------------------------------------- everything on record was reached

  ghost predicate FollowClosed(w: World, all: iset<Use>) {
    forall u, v :: u in all && Follows(w, u, v) ==> v in all
  }

  ghost predicate IsValue(w: World, all: iset<Use>, v: Value) {
    exists u :: u in all && ValueOf(w, u) == Some(v)
  }

  ghost predicate IsLed(w: World, all: iset<Use>, q: string) {
    exists u :: u in all && LeadsTo(w, u, q)
  }

  ghost predicate Recorded(w: World, all: iset<Use>, n: string, v: Value) {
    exists u :: u in all && u.def.name == n && ValueOf(w, u) == Some(v)
  }

  // All that the context lists and records comes from all.
  ghost predicate Sound(w: World, all: iset<Use>, ctx: Context) {
    && (forall n :: n in ctx.inputs ==> Recorded(w, all, n, ctx.inputs[n]))
    && (forall q :: q in ctx.queries ==> IsLed(w, all, q))
    && (forall s :: s in ctx.sources ==> IsValue(w, all, SourceName(s)))
    && (forall r :: r in ctx.reports ==> IsValue(w, all, ReportName(r)))
  }

  ghost predicate StaysSound(w: World, all: iset<Use>, r: Result) {
    r.Ok? ==> Sound(w, all, r.ctx)
  }

  // The inputs that have a value are in all.
  ghost predicate Holds(defs: seq<InputDef>, given: map<string, Option<string>>, all: iset<Use>) {
    forall d :: d in defs && RawValue(d, given).Some? ==> Use(d, RawValue(d, given).value) in all
  }

  lemma {:induction false} DefsSound(w: World, all: iset<Use>, ctx: Context, defs: seq<InputDef>,
                                     given: map<string, Option<string>>, left: nat)
    requires FollowClosed(w, all) && Sound(w, all, ctx) && Holds(defs, given, all)
    ensures StaysSound(w, all, ResolveDefs(w, ctx, defs, given, left))
    decreases left, 4, |defs|
  {
    hide FollowClosed, Sound, ResolveInput, RawValue;
    if defs != [] {
      assert defs[0] in defs;
      assert Holds(defs[1..], given, all);
      if defs[0].name in ctx.inputs || RawValue(defs[0], given).None? {
        DefsSound(w, all, ctx, defs[1..], given, left);
      } else {
        var raw := RawValue(defs[0], given).value;
        InputSound(w, all, ctx, Use(defs[0], raw), left);
        var r := ResolveInput(w, ctx, defs[0], raw, left);
        if r.Ok? {
          DefsSound(w, all, r.ctx, defs[1..], given, left);
        }
      }
    }
  }

  lemma NoteSound(w: World, all: iset<Use>, r: Result, u: Use)
    requires StaysSound(w, all, r) && u in all && ValueOf(w, u).Some?
    ensures StaysSound(w, all, Note(r, u.def.name, ValueOf(w, u).value))
  {
    hide ValueOf;
    if r.Ok? {
      var v := ValueOf(w, u).value;
      assert Recorded(w, all, u.def.name, v);
      hide Recorded, IsLed, IsValue;
      var d := Note(r, u.def.name, v).ctx;
      forall n | n in d.inputs
        ensures Recorded(w, all, n, d.inputs[n])
      {
        assert n != u.def.name ==> n in r.ctx.inputs;
      }
    }
  }

  function ResolveReference(w: World, ctx: Context, v: Value, left: nat): Result {
    match v
    case SourceName(s) => ResolveDataSource(w, ctx, s, left)
    case QueryName(s) => ResolveQuery(w, ctx, s, left)
    case ReportName(s) => ResolveReport(w, ctx, s, left)
    case _ => Ok(ctx)
  }

  // Resolving an input is resolving what it refers to, then noting its value.
  lemma InputIs(w: World, ctx: Context, u: Use, left: nat)
    ensures var r := ResolveInput(w, ctx, u.def, u.raw, left);
      && (r.Ok? ==> ValueOf(w, u).Some?)
      && (ValueOf(w, u).Some? ==>
            var v := ValueOf(w, u).value;
            r == Note(ResolveReference(w, ctx, v, left), u.def.name, v))
  {
    hide KindOf, ResolveQuery, ResolveDataSource, ResolveReport, Note;
  }

  lemma {:induction false} InputSound(w: World, all: iset<Use>, ctx: Context, u: Use, left: nat)
    requires FollowClosed(w, all) && Sound(w, all, ctx) && u in all
    ensures StaysSound(w, all, ResolveInput(w, ctx, u.def, u.raw, left))
    decreases left, 3, 0
  {
    hide FollowClosed, Sound, ResolveQuery, ResolveDataSource, ResolveReport, ResolveInput, ValueOf, Note;
    InputIs(w, ctx, u, left);
    if ValueOf(w, u).Some? {
      var name := u.def.name;
      match ValueOf(w, u).value {
        case SourceName(s) =>
          DataSourceSound(w, all, ctx, s, u, left);
          NoteSound(w, all, ResolveDataSource(w, ctx, s, left), u);
        case QueryName(s) =>
          QuerySound(w, all, ctx, s, u, left);
          NoteSound(w, all, ResolveQuery(w, ctx, s, left), u);
        case ReportName(s) =>
          ReportSound(w, all, ctx, s, u, left);
          NoteSound(w, all, ResolveReport(w, ctx, s, left), u);
        case _ =>
          NoteSound(w, all, Ok(ctx), u);
      }
    }
  }

  lemma {:induction false} DataSourceSound(w: World, all: iset<Use>, ctx: Context, s: string, u: Use, left: nat)
    requires FollowClosed(w, all) && Sound(w, all, ctx) && u in all && ValueOf(w, u) == Some(SourceName(s))
    ensures StaysSound(w, all, ResolveDataSource(w, ctx, s, left))
    decreases left, 2, 0
  {
    hide FollowClosed, ResolveQuery, ValueOf, IsLed, Recorded;
    assert IsValue(w, all, SourceName(s));
    if s !in ctx.sources && s in w.sources && w.sources[s].view.Some? {
      QuerySound(w, all, ctx, w.sources[s].view.value, u, left);
    }
  }

  lemma {:induction false} ReportSound(w: World, all: iset<Use>, ctx: Context, s: string, u: Use, left: nat)
    requires FollowClosed(w, all) && Sound(w, all, ctx) && u in all && ValueOf(w, u) == Some(ReportName(s))
    ensures StaysSound(w, all, ResolveReport(w, ctx, s, left))
    decreases left, 2, 0
  {
    hide FollowClosed, ResolveQuery, ValueOf, IsLed, Recorded;
    assert IsValue(w, all, ReportName(s));
    if s !in ctx.reports && s in w.reports {
      QuerySound(w, all, ctx, w.reports[s].query, u, left);
    }
  }

  lemma {:induction false} QuerySound(w: World, all: iset<Use>, ctx: Context, q: string, u: Use, left: nat)
    requires FollowClosed(w, all) && Sound(w, all, ctx) && u in all && LeadsTo(w, u, q)
    ensures StaysSound(w, all, ResolveQuery(w, ctx, q, left))
    decreases left, 1, 0
  {
    hide ResolveDefs, LeadsTo, IsValue, Recorded;
    assert IsLed(w, all, q);
    if q !in ctx.queries && q in w.queries && left > 0 {
      var defs := w.queries[q].inputs;
      assert Holds(defs, Given([]), all) by {
        forall d | d in defs && d.default.Some?
          ensures Use(d, d.default.value) in all
        {
          assert Follows(w, u, Use(d, d.default.value));
        }
      }
      DefsSound(w, all, ctx, defs, Given([]), left - 1);
    }
  }

  lemma ReachableIsClosed(w: World, defs: seq<InputDef>, given: map<string, Option<string>>)
    ensures var all := AllReachable(w, defs, given); FollowClosed(w, all) && Holds(defs, given, all)
  {
    hide Follows, RawValue;
    var all := AllReachable(w, defs, given);
    forall u, v | u in all && Follows(w, u, v)
      ensures v in all
    {
      var k: nat :| Reached(w, defs, given, u, k);
      assert Reached(w, defs, given, v, k + 1);
    }
    forall d | d in defs && RawValue(d, given).Some?
      ensures Use(d, RawValue(d, given).value) in all
    {
      assert Reached(w, defs, given, Use(d, RawValue(d, given).value), 0);
    }
  }

  // What a loop over inputs, from nothing, gives on success.
  lemma DefsFromNothing(w: World, defs: seq<InputDef>, given: map<string, Option<string>>, left: nat)
    requires ResolveDefs(w, EMPTY, defs, given, left).Ok?
    ensures var ctx := ResolveDefs(w, EMPTY, defs, given, left).ctx;
      Closed(w, ctx) && AllResolved(defs, given, ctx) && Sound(w, AllReachable(w, defs, given), ctx)
  {
    hide ResolveDefs, Closed, Sound, AllResolved, FollowClosed, Holds, AllReachable;
    EmptyIsClosed(w);
    EmptyIsSound(w, AllReachable(w, defs, given));
    ReachableIsClosed(w, defs, given);
    DefsKept(w, EMPTY, defs, given, left);
    DefsSound(w, AllReachable(w, defs, given), EMPTY, defs, given, left);
  }

  lemma EmptyIsSound(w: World, all: iset<Use>)
    ensures Sound(w, all, EMPTY)
  {
  }

  // -------------------------------------------- everything reached is on record

  // Inputs of the same name that can be reached have the same value.
  ghost predicate Consistent(w: World, defs: seq<InputDef>, given: map<string, Option<string>>) {
    forall u, v :: Reachable(w, defs, given, u) && Reachable(w, defs, given, v) && u.def.name == v.def.name ==>
      ValueOf(w, u) == ValueOf(w, v)
  }

  // The input is on record with its own value.
  ghost predicate OnRecord(w: World, ctx: Context, u: Use) {
    u.def.name in ctx.inputs && ValueOf(w, u) == Some(ctx.inputs[u.def.name])
  }

  // In a closed context a value on record leads to a listed query.
  lemma LeadsToListed(w: World, ctx: Context, u: Use, q: string)
    requires Closed(w, ctx) && OnRecord(w, ctx, u) && LeadsTo(w, u, q)
    ensures q in ctx.queries && RefersInside(ctx, ValueOf(w, u).value)
  {
    hide ValueOf, DefaultsResolved;
    assert RefersInside(ctx, ctx.inputs[u.def.name]);
  }

  lemma OneValue(w: World, defs: seq<InputDef>, given: map<string, Option<string>>, ctx: Context, u: Use)
    requires Consistent(w, defs, given) && Sound(w, AllReachable(w, defs, given), ctx)
    requires Reachable(w, defs, given, u) && u.def.name in ctx.inputs
    ensures OnRecord(w, ctx, u)
  {
    hide Reachable, ValueOf, IsLed, IsValue;
    assert Recorded(w, AllReachable(w, defs, given), u.def.name, ctx.inputs[u.def.name]);
  }

  lemma {:induction false} ReachedIsOnRecord(w: World, defs: seq<InputDef>, given: map<string, Option<string>>,
                                             ctx: Context, v: Use, k: nat)
    requires Closed(w, ctx) && AllResolved(defs, given, ctx) && Sound(w, AllReachable(w, defs, given), ctx)
    requires Consistent(w, defs, given) && Reached(w, defs, given, v, k)
    ensures OnRecord(w, ctx, v)
    decreases k
  {
    hide Closed, Sound, Consistent, RawValue, OnRecord, LeadsTo;
    assert Reachable(w, defs, given, v);
    if k == 0 {
      var i :| 0 <= i < |defs| && defs[i] == v.def;
    } else {
      var u :| Reached(w, defs, given, u, k - 1) && Follows(w, u, v);
      ReachedIsOnRecord(w, defs, given, ctx, u, k - 1);
      var q :| LeadsTo(w, u, q) && q in w.queries && v.def in w.queries[q].inputs && v.def.default == Some(v.raw);
      LeadsToListed(w, ctx, u, q);
      DefaultIsResolved(w, ctx, q, v.def);
    }
    OneValue(w, defs, given, ctx, v);
  }

  lemma DefaultIsResolved(w: World, ctx: Context, q: string, d: InputDef)
    requires Closed(w, ctx) && q in ctx.queries && q in w.queries && d in w.queries[q].inputs && d.default.Some?
    ensures d.name in ctx.inputs
  {
    var i :| 0 <= i < |w.queries[q].inputs| && w.queries[q].inputs[i] == d;
    assert DefaultsResolved(w.queries[q].inputs, ctx);
  }

  // ------------------------------------------------------------------ theorems

  lemma ResolveIsDefs(w: World, defs: seq<InputDef>, vals: seq<InputVal>)
    requires Resolve(w, defs, vals).Ok?
    ensures Resolve(w, defs, vals) == ResolveDefs(w, EMPTY, defs, Given(vals), MAX_DEPTH - 1)
  {
    hide ResolveDefs;
  }

  // Every input that can be reached is recorded with its own value exactly if no
  // two of them share a name and differ in value.
  lemma AllOnRecordIff(w: World, defs: seq<InputDef>, vals: seq<InputVal>)
    requires Resolve(w, defs, vals).Ok?
    ensures (forall u :: Reachable(w, defs, Given(vals), u) ==> OnRecord(w, Resolve(w, defs, vals).ctx, u))
            <==> Consistent(w, defs, Given(vals))
  {
    hide Resolve, ResolveDefs, Closed, Sound, AllResolved, AllReachable, ValueOf;
    ResolveIsDefs(w, defs, vals);
    var given, ctx := Given(vals), Resolve(w, defs, vals).ctx;
    DefsFromNothing(w, defs, given, MAX_DEPTH - 1);
    if Consistent(w, defs, given) {
      hide Consistent, OnRecord;
      forall u | Reachable(w, defs, given, u)
        ensures OnRecord(w, ctx, u)
      {
        var k: nat :| Reached(w, defs, given, u, k);
        ReachedIsOnRecord(w, defs, given, ctx, u, k);
      }
    }
  }

  // The lists are exact: a query, data source or report is listed if and only if
  // some input that can be reached leads to it or refers to it.
  ghost predicate ExactLists(w: World, all: iset<Use>, ctx: Context) {
    && (forall q :: q in ctx.queries <==> IsLed(w, all, q))
    && (forall s :: s in ctx.sources <==> IsValue(w, all, SourceName(s)))
    && (forall r :: r in ctx.reports <==> IsValue(w, all, ReportName(r)))
    && (forall n, v :: (n in ctx.inputs && ctx.inputs[n] == v) <==> Recorded(w, all, n, v))
  }

  // Without a clash of names the lists are exact.
  lemma ListsAreExact(w: World, defs: seq<InputDef>, vals: seq<InputVal>)
    requires Resolve(w, defs, vals).Ok? && Consistent(w, defs, Given(vals))
    ensures ExactLists(w, AllReachable(w, defs, Given(vals)), Resolve(w, defs, vals).ctx)
  {
    hide Resolve, ResolveDefs, AllResolved, ValueOf, Reachable, Consistent, LeadsTo, Closed, OnRecord;
    ResolveIsDefs(w, defs, vals);
    AllOnRecordIff(w, defs, vals);
    var ctx, all := Resolve(w, defs, vals).ctx, AllReachable(w, defs, Given(vals));
    DefsFromNothing(w, defs, Given(vals), MAX_DEPTH - 1);
    forall q | IsLed(w, all, q)
      ensures q in ctx.queries
    {
      var u :| u in all && LeadsTo(w, u, q);
      LeadsToListed(w, ctx, u, q);
    }
    forall n, v | Recorded(w, all, n, v)
      ensures n in ctx.inputs && ctx.inputs[n] == v
    {
      var u :| u in all && u.def.name == n && ValueOf(w, u) == Some(v);
      OnRecordIs(w, ctx, u);
    }
    forall v | IsValue(w, all, v)
      ensures RefersInside(ctx, v)
    {
      var u :| u in all && ValueOf(w, u) == Some(v);
      OnRecordIs(w, ctx, u);
      RecordedRefersInside(w, ctx, u.def.name);
    }
    forall s | IsValue(w, all, SourceName(s))
      ensures s in ctx.sources
    {
      assert RefersInside(ctx, SourceName(s));
    }
    forall r | IsValue(w, all, ReportName(r))
      ensures r in ctx.reports
    {
      assert RefersInside(ctx, ReportName(r));
    }
  }

  lemma OnRecordIs(w: World, ctx: Context, u: Use)
    requires OnRecord(w, ctx, u)
    ensures u.def.name in ctx.inputs && ValueOf(w, u) == Some(ctx.inputs[u.def.name])
  {
  }

  lemma RecordedRefersInside(w: World, ctx: Context, n: string)
    requires Closed(w, ctx) && n in ctx.inputs
    ensures RefersInside(ctx, ctx.inputs[n])
  {
  }

  // So every reference that a listed query makes is listed, too.
  lemma ReferencesAreListed(w: World, defs: seq<InputDef>, vals: seq<InputVal>, q: string, d: InputDef)
    requires Resolve(w, defs, vals).Ok? && Consistent(w, defs, Given(vals))
    requires q in Resolve(w, defs, vals).ctx.queries && q in w.queries && d in w.queries[q].inputs && d.default.Some?
    ensures var ctx, u := Resolve(w, defs, vals).ctx, Use(d, d.default.value);
      OnRecord(w, ctx, u) && RefersInside(ctx, ValueOf(w, u).value)
  {
    hide Resolve, ValueOf, Reachable, Consistent, LeadsTo, Closed, Sound, AllResolved, ResolveDefs;
    var ctx, all, v := Resolve(w, defs, vals).ctx, AllReachable(w, defs, Given(vals)), Use(d, d.default.value);
    ListsAreExact(w, defs, vals);
    var u :| u in all && LeadsTo(w, u, q);
    ReachableIsClosed(w, defs, Given(vals));
    assert Follows(w, u, v);
    AllOnRecordIff(w, defs, vals);
    ResolveIsDefs(w, defs, vals);
    DefsFromNothing(w, defs, Given(vals), MAX_DEPTH - 1);
    RecordedRefersInside(w, ctx, d.name);
  }

  // ---------------------------------------------------------------- given values

  // The loop over inputs takes them up one after the other.
  lemma {:induction false} DefsSplit(w: World, ctx: Context, a: seq<InputDef>, b: seq<InputDef>,
                                     given: map<string, Option<string>>, left: nat)
    ensures var r := ResolveDefs(w, ctx, a, given, left);
      ResolveDefs(w, ctx, a + b, given, left) == if r.Err? then r else ResolveDefs(w, r.ctx, b, given, left)
    decreases |a|
  {
    hide ResolveInput, RawValue;
    if a == [] {
      assert a + b == b;
    } else {
      assert (a + b)[0] == a[0] && (a + b)[1..] == a[1..] + b;
      if a[0].name in ctx.inputs || RawValue(a[0], given).None? {
        DefsSplit(w, ctx, a[1..], b, given, left);
      } else {
        var r := ResolveInput(w, ctx, a[0], RawValue(a[0], given).value, left);
        if r.Ok? {
          DefsSplit(w, r.ctx, a[1..], b, given, left);
        }
      }
    }
  }

  // An input that is resolved is on record with its own value.
  lemma InputOnRecord(w: World, ctx: Context, u: Use, left: nat)
    requires ResolveInput(w, ctx, u.def, u.raw, left).Ok?
    ensures OnRecord(w, ResolveInput(w, ctx, u.def, u.raw, left).ctx, u)
  {
    hide ResolveInput, ResolveReference, ValueOf;
    InputIs(w, ctx, u, left);
  }

  // Once an input with a value has been passed, it is on record with that value,
  // or was on record before, and either way the record does not change.
  lemma PassedInput(w: World, ctx: Context, u: Use, rest: seq<InputDef>, given: map<string, Option<string>>, left: nat)
    requires Closed(w, ctx) && RawValue(u.def, given) == Some(u.raw)
    requires ResolveDefs(w, ctx, [u.def] + rest, given, left).Ok?
    ensures var t := ResolveDefs(w, ctx, [u.def] + rest, given, left).ctx;
      if u.def.name in ctx.inputs
      then u.def.name in t.inputs && t.inputs[u.def.name] == ctx.inputs[u.def.name]
      else OnRecord(w, t, u)
  {
    hide Closed, ResolveInput, RawValue, AllResolved, ValueOf;
    var defs := [u.def] + rest;
    assert defs[0] == u.def && defs[1..] == rest;
    if u.def.name in ctx.inputs {
      DefsKept(w, ctx, rest, given, left);
    } else {
      var r := ResolveInput(w, ctx, u.def, u.raw, left);
      InputKept(w, ctx, u.def, u.raw, left);
      InputOnRecord(w, ctx, u, left);
      DefsKept(w, r.ctx, rest, given, left);
    }
  }

  // The inputs before the i-th leave its name alone, or record the same value.
  ghost predicate Unchallenged(w: World, before: seq<InputDef>, given: map<string, Option<string>>, u: Use) {
    forall v :: Reachable(w, before, given, v) && v.def.name == u.def.name ==> ValueOf(w, v) == ValueOf(w, u)
  }

  // A value that is given for an input wins over defaults, its own and those of
  // other queries, if no input of that name with another value can be reached
  // from the inputs before it; and, where those inputs are consistent, only if.
  lemma GivenValueWins(w: World, defs: seq<InputDef>, vals: seq<InputVal>, i: nat, raw: string)
    requires Resolve(w, defs, vals).Ok? && i < |defs|
    requires defs[i].name in Given(vals) && Given(vals)[defs[i].name] == Some(raw)
    ensures var given, u, ctx := Given(vals), Use(defs[i], raw), Resolve(w, defs, vals).ctx;
      && (Unchallenged(w, defs[..i], given, u) ==> OnRecord(w, ctx, u))
      && (Consistent(w, defs[..i], given) && OnRecord(w, ctx, u) ==> Unchallenged(w, defs[..i], given, u))
  {
    hide Resolve, ResolveDefs, Closed, Sound, AllResolved, ValueOf, AllReachable;
    ResolveIsDefs(w, defs, vals);
    var given, u, before, left := Given(vals), Use(defs[i], raw), defs[..i], MAX_DEPTH - 1;
    var rest := defs[i + 1..];
    assert defs == before + ([u.def] + rest);
    DefsSplit(w, EMPTY, before, [u.def] + rest, given, left);
    DefsFromNothing(w, before, given, left);
    var mid := ResolveDefs(w, EMPTY, before, given, left).ctx;
    PassedInput(w, mid, u, rest, given, left);
    if u.def.name in mid.inputs {
      RecordIsReached(w, before, given, mid, u.def.name);
    }
    if Consistent(w, before, given) {
      forall v | Reachable(w, before, given, v) && v.def.name == u.def.name
        ensures OnRecord(w, mid, v)
      {
        var k: nat :| Reached(w, before, given, v, k);
        ReachedIsOnRecord(w, before, given, mid, v, k);
      }
    }
  }

  lemma RecordIsReached(w: World, defs: seq<InputDef>, given: map<string, Option<string>>, ctx: Context, n: string)
    requires Sound(w, AllReachable(w, defs, given), ctx) && n in ctx.inputs
    ensures exists v :: Reachable(w, defs, given, v) && v.def.name == n && ValueOf(w, v) == Some(ctx.inputs[n])
  {
    hide ValueOf, Reachable, IsLed, IsValue;
    assert Recorded(w, AllReachable(w, defs, given), n, ctx.inputs[n]);
  }

  // ---------------------------------------------------------- names that clash

  // Two inputs of the same name with different defaults.
  function MaskedWorld(): World {
    World(map["q" := Query([InputDef("ds", "reportdatasource", true, Some("s2"))])],
          map["s1" := DataSource(None), "s2" := DataSource(None)], map[],
          (s: string) => Some(s), (s: string) => None, (s: string) => None)
  }

  function MaskedInputs(): seq<InputDef> {
    [InputDef("ds", "reportdatasource", true, Some("s1")), InputDef("dep", "reportquery", true, Some("q"))]
  }

  // The list is not complete when the names clash: the listed query q refers to
  // the data source s2, which is not listed.
  lemma MaskedReference()
    ensures Resolve(MaskedWorld(), MaskedInputs(), []) ==
      Ok(Context({"q"}, {"s1"}, {}, map["ds" := SourceName("s1"), "dep" := QueryName("q")]))
  {
    var w, defs := MaskedWorld(), MaskedInputs();
    var ds, dep := defs[0], defs[1];
    hide KindOf, ResolveDependencies, ResolveDefs, ResolveInput, ResolveQuery, ResolveDataSource;
    MaskedKinds();
    var one := Context({}, {"s1"}, {}, map["ds" := SourceName("s1")]);
    InputIs(w, EMPTY, Use(ds, "s1"), 49);
    MaskedSource(w);
    OneDef(w, EMPTY, ds, Given([]), 49);
    MaskedQuery(w, one);
    InputIs(w, one, Use(dep, "q"), 49);
    OneDef(w, one, dep, Given([]), 49);
    DefsSplit(w, EMPTY, [ds], [dep], Given([]), 49);
    assert [ds] + [dep] == defs;
    OwnInputs(w, EMPTY, defs, MAX_DEPTH);
  }

  lemma MaskedKinds()
    ensures KindOf(MaskedInputs()[0]) == SourceKind && KindOf(MaskedInputs()[1]) == QueryKind
  {
    assert Lower(MaskedInputs()[0].typ) == "reportdatasource";
    assert Lower(MaskedInputs()[1].typ) == "reportquery";
  }

  lemma MaskedSource(w: World)
    requires w == MaskedWorld()
    ensures ResolveDataSource(w, EMPTY, "s1", 49) == Ok(Context({}, {"s1"}, {}, map[]))
  {
    hide ResolveQuery;
  }

  lemma MaskedQuery(w: World, ctx: Context)
    requires w == MaskedWorld() && "ds" in ctx.inputs
    ensures ResolveQuery(w, ctx, "q", 49) == Ok(ctx.(queries := ctx.queries + {"q"}))
  {
    hide ResolveDependencies, ResolveDefs, ResolveInput;
    OneDef(w, ctx, w.queries["q"].inputs[0], Given([]), 48);
    OwnInputs(w, ctx, w.queries["q"].inputs, 49);
  }

  // A query that has an input x with a default.
  function OwnDefaultWorld(): World {
    World(map["q" := Query([InputDef("x", "string", true, Some("theirs"))])], map[], map[],
          (s: string) => Some(s), (s: string) => None, (s: string) => None)
  }

  function OwnDefaultInputs(): seq<InputDef> {
    [InputDef("dep", "reportquery", true, Some("q")), InputDef("x", "string", true, None)]
  }

  // A value given for x loses to the default of a query that is resolved first.
  lemma GivenValueLoses()
    ensures Resolve(OwnDefaultWorld(), OwnDefaultInputs(), [InputVal("x", Some("mine"))]) ==
      Ok(Context({"q"}, {}, {}, map["x" := Text("theirs"), "dep" := QueryName("q")]))
  {
    var w, defs, vals := OwnDefaultWorld(), OwnDefaultInputs(), [InputVal("x", Some("mine"))];
    var dep, x := defs[0], defs[1];
    assert KindOf(dep) == QueryKind by {
      assert Lower(dep.typ) == "reportquery";
    }
    hide KindOf, ResolveDependencies, ResolveDefs, ResolveInput, ResolveQuery;
    OwnDefaultQuery(w);
    InputIs(w, EMPTY, Use(dep, "q"), 49);
    var two := Context({"q"}, {}, {}, map["x" := Text("theirs"), "dep" := QueryName("q")]);
    assert ResolveInput(w, EMPTY, dep, "q", 49) == Ok(two);
    assert vals[..0] == [] && Given(vals) == map["x" := Some("mine")];
    OneDef(w, EMPTY, dep, Given(vals), 49);
    OneDef(w, two, x, Given(vals), 49);
    DefsSplit(w, EMPTY, [dep], [x], Given(vals), 49);
    assert [dep] + [x] == defs;
    AllKnown(w, defs, vals);
  }

  lemma OwnDefaultQuery(w: World)
    requires w == OwnDefaultWorld()
    ensures ResolveQuery(w, EMPTY, "q", 49) == Ok(Context({"q"}, {}, {}, map["x" := Text("theirs")]))
  {
    var inner := w.queries["q"].inputs[0];
    assert KindOf(inner) == StringKind by {
      assert Lower(inner.typ) == "string";
    }
    hide KindOf, ResolveDependencies, ResolveDefs, ResolveInput;
    InputIs(w, EMPTY, Use(inner, "theirs"), 48);
    OneDef(w, EMPTY, inner, Given([]), 48);
    OwnInputs(w, EMPTY, w.queries["q"].inputs, 49);
  }

  lemma OneDef(w: World, ctx: Context, d: InputDef, given: map<string, Option<string>>, left: nat)
    ensures ResolveDefs(w, ctx, [d], given, left) ==
      if d.name in ctx.inputs || RawValue(d, given).None? then Ok(ctx)
      else ResolveInput(w, ctx, d, RawValue(d, given).value, left)
  {
    hide ResolveInput, RawValue;
    assert [d][1..] == [];
    assert forall c :: ResolveDefs(w, c, [], given, left) == Ok(c);
  }

  lemma OwnInputs(w: World, ctx: Context, defs: seq<InputDef>, left: nat)
    requires left > 0
    ensures ResolveDependencies(w, ctx, defs, [], left) == ResolveDefs(w, ctx, defs, Given([]), left - 1)
  {
    hide ResolveDefs;
  }

  lemma AllKnown(w: World, defs: seq<InputDef>, vals: seq<InputVal>)
    requires |vals| == 1 && vals[0].name in Names(defs)
    ensures Resolve(w, defs, vals) == ResolveDefs(w, EMPTY, defs, Given(vals), MAX_DEPTH - 1)
  {
    hide ResolveDefs;
    assert vals[1..] == [] && Unknown(defs, []).None?;
    assert Unknown(defs, vals).None?;
  }
}
