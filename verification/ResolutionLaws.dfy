// When a resolution succeeds, and what its errors mean.
module ResolutionLaws {
  import opened Options
  import opened Dependencies
  import opened DependencyLaws
  import opened Reachability

  // -------------------------------------------------------------- given values

  // The value given last for a name counts.
  lemma {:induction false} GivenIsLast(a: seq<InputVal>, v: InputVal, b: seq<InputVal>)
    requires forall i :: 0 <= i < |b| ==> b[i].name != v.name
    ensures v.name in Given(a + [v] + b) && Given(a + [v] + b)[v.name] == v.value
    decreases |b|
  {
    var all := a + [v] + b;
    var n := |all| - 1;
    if b == [] {
      assert all[n] == v;
    } else {
      assert all[..n] == a + [v] + b[..|b| - 1] && all[n] == b[|b| - 1];
      GivenIsLast(a, v, b[..|b| - 1]);
    }
  }

  lemma {:induction false} OnlyGiven(vals: seq<InputVal>, name: string)
    requires forall i :: 0 <= i < |vals| ==> vals[i].name != name
    ensures name !in Given(vals)
    decreases |vals|
  {
    if vals != [] {
      OnlyGiven(vals[..|vals| - 1], name);
    }
  }

  ghost predicate Defines(defs: seq<InputDef>, name: string) {
    exists i :: 0 <= i < |defs| && defs[i].name == name
  }

  // The first given value that no definition asks for is the one reported.
  lemma {:induction false} UnknownIsFirst(defs: seq<InputDef>, vals: seq<InputVal>)
    ensures Unknown(defs, vals).None? <==> forall i :: 0 <= i < |vals| ==> Defines(defs, vals[i].name)
    ensures Unknown(defs, vals).Some? ==>
      exists i :: 0 <= i < |vals| && vals[i].name == Unknown(defs, vals).value && !Defines(defs, vals[i].name)
        && forall j :: 0 <= j < i ==> Defines(defs, vals[j].name)
    decreases |vals|
  {
    if vals != [] {
      NamesDefine(defs, vals[0].name);
      if Defines(defs, vals[0].name) {
        var rest := vals[1..];
        UnknownIsFirst(defs, rest);
        assert forall i :: 0 <= i < |rest| ==> rest[i] == vals[i + 1];
        if Unknown(defs, vals).Some? {
          var i :| 0 <= i < |rest| && rest[i].name == Unknown(defs, rest).value && !Defines(defs, rest[i].name)
                   && forall j :: 0 <= j < i ==> Defines(defs, rest[j].name);
          assert vals[i + 1] == rest[i];
          forall j | 0 <= j < i + 1
            ensures Defines(defs, vals[j].name)
          {
            assert j > 0 ==> vals[j] == rest[j - 1];
          }
        }
        if forall i :: 0 <= i < |rest| ==> Defines(defs, rest[i].name) {
          assert forall i :: 0 < i < |vals| ==> vals[i] == rest[i - 1];
        }
      }
    }
  }

  lemma NamesDefine(defs: seq<InputDef>, name: string)
    ensures name in Names(defs) <==> Defines(defs, name)
  {
    if name in Names(defs) {
      var d :| d in defs && d.name == name;
    }
  }

  // ------------------------------------------------------------- values by type

  // What an input of each type is recorded as. The names ReportingStart and
  // ReportingEnd are times whatever their type, and the case of types is ignored.
  lemma ValueByType(w: World, u: Use)
    ensures var text, named := w.asString(u.raw), u.def.name == "ReportingStart" || u.def.name == "ReportingEnd";
      && (named || u.def.typ in ["time", "Time"] ==>
            ValueOf(w, u) == if w.asTime(u.raw).Some? then Some(Time(w.asTime(u.raw).value)) else None)
      && (!named && u.def.typ in ["", "string", "String"] ==>
            ValueOf(w, u) == if text.Some? then Some(Text(text.value)) else None)
      && (!named && u.def.typ in ["int", "integer", "Integer"] ==>
            ValueOf(w, u) == if w.asInt(u.raw).Some? then Some(Number(w.asInt(u.raw).value)) else None)
      && (!named && u.def.typ in ["ReportDataSource", "reportdatasource"] ==>
            ValueOf(w, u) == if text.Some? then Some(SourceName(text.value)) else None)
      && (!named && u.def.typ in ["ReportQuery", "reportquery"] ==>
            ValueOf(w, u) == if text.Some? then Some(QueryName(text.value)) else None)
      && (!named && u.def.typ in ["Report", "report"] ==>
            ValueOf(w, u) == if text.Some? then Some(ReportName(text.value)) else None)
  {
    LowerSimple();
    LowerReferences();
    LowerQueries();
    hide Lower;
  }

  lemma LowerSimple()
    ensures Lower("") == "" && Lower("string") == Lower("String") == "string"
    ensures Lower("time") == Lower("Time") == "time"
    ensures Lower("int") == "int" && Lower("integer") == Lower("Integer") == "integer"
  {
  }

  lemma LowerReferences()
    ensures Lower("ReportDataSource") == Lower("reportdatasource") == "reportdatasource"
  {
  }

  lemma LowerQueries()
    ensures Lower("ReportQuery") == Lower("reportquery") == "reportquery"
    ensures Lower("Report") == Lower("report") == "report"
  {
  }

  // ----------------------------------------------------------------- the errors

  // The query is missing that u leads to, or what u refers to.
  ghost predicate Missing(w: World, u: Use, name: string) {
    && ValueOf(w, u).Some?
    && (match ValueOf(w, u).value
        case SourceName(s) => (s == name && s !in w.sources) || (LeadsTo(w, u, name) && name !in w.queries)
        case QueryName(s) => s == name && s !in w.queries
        case ReportName(s) => (s == name && s !in w.reports) || (LeadsTo(w, u, name) && name !in w.queries)
        case _ => false)
  }

  // Some input is at fault as the error says.
  ghost predicate Real(w: World, all: iset<Use>, e: Error) {
    match e
    case Cycle => true
    case UnknownInput(_) => false
    case UnsupportedType(t) => exists u :: u in all && KindOf(u.def) == OtherKind && Lower(u.def.typ) == t
    case BadValue(n) => exists u :: u in all && u.def.name == n && KindOf(u.def) != OtherKind && ValueOf(w, u).None?
    case NotFound(n) => exists u :: u in all && Missing(w, u, n)
  }

  ghost predicate FailsForReal(w: World, all: iset<Use>, r: Result) {
    r.Err? ==> Real(w, all, r.error)
  }

  lemma {:induction false} DefsFail(w: World, all: iset<Use>, ctx: Context, defs: seq<InputDef>,
                                    given: map<string, Option<string>>, left: nat)
    requires FollowClosed(w, all) && Holds(defs, given, all)
    ensures FailsForReal(w, all, ResolveDefs(w, ctx, defs, given, left))
    decreases left, 4, |defs|
  {
    hide FollowClosed, ResolveInput, RawValue, Real;
    if defs != [] {
      assert defs[0] in defs;
      assert Holds(defs[1..], given, all);
      if defs[0].name in ctx.inputs || RawValue(defs[0], given).None? {
        DefsFail(w, all, ctx, defs[1..], given, left);
      } else {
        var raw := RawValue(defs[0], given).value;
        InputFails(w, all, ctx, Use(defs[0], raw), left);
        var r := ResolveInput(w, ctx, defs[0], raw, left);
        if r.Ok? {
          DefsFail(w, all, r.ctx, defs[1..], given, left);
        }
      }
    }
  }

  // An input without a value is an error of its own.
  lemma NoValue(w: World, ctx: Context, u: Use, left: nat)
    requires ValueOf(w, u).None?
    ensures ResolveInput(w, ctx, u.def, u.raw, left) ==
      Err(if KindOf(u.def) == OtherKind then UnsupportedType(Lower(u.def.typ)) else BadValue(u.def.name))
  {
    hide KindOf, ResolveQuery, ResolveReport, ResolveDataSource, Note;
  }

  lemma {:induction false} InputFails(w: World, all: iset<Use>, ctx: Context, u: Use, left: nat)
    requires FollowClosed(w, all) && u in all
    ensures FailsForReal(w, all, ResolveInput(w, ctx, u.def, u.raw, left))
    decreases left, 3, 0
  {
    hide FollowClosed, ResolveQuery, ResolveDataSource, ResolveReport, ResolveInput, ValueOf, Missing;
    InputIs(w, ctx, u, left);
    if ValueOf(w, u).None? {
      NoValue(w, ctx, u, left);
    } else {
      match ValueOf(w, u).value {
        case SourceName(s) => SourceFails(w, all, ctx, s, u, left);
        case QueryName(s) =>
          QueryLed(w, u);
          QueryFails(w, all, ctx, s, u, left);
        case ReportName(s) => ReportFails(w, all, ctx, s, u, left);
        case _ =>
      }
    }
  }

  lemma QueryLed(w: World, u: Use)
    requires ValueOf(w, u).Some? && ValueOf(w, u).value.QueryName?
    ensures LeadsTo(w, u, ValueOf(w, u).value.s)
  {
  }

  lemma {:induction false} SourceFails(w: World, all: iset<Use>, ctx: Context, s: string, u: Use, left: nat)
    requires FollowClosed(w, all) && u in all && ValueOf(w, u) == Some(SourceName(s))
    ensures FailsForReal(w, all, ResolveDataSource(w, ctx, s, left))
    decreases left, 2, 0
  {
    hide FollowClosed, ResolveQuery, ValueOf;
    if s !in ctx.sources {
      if s !in w.sources {
        assert Missing(w, u, s);
      } else if w.sources[s].view.Some? {
        QueryFails(w, all, ctx, w.sources[s].view.value, u, left);
      }
    }
  }

  lemma {:induction false} ReportFails(w: World, all: iset<Use>, ctx: Context, s: string, u: Use, left: nat)
    requires FollowClosed(w, all) && u in all && ValueOf(w, u) == Some(ReportName(s))
    ensures FailsForReal(w, all, ResolveReport(w, ctx, s, left))
    decreases left, 2, 0
  {
    hide FollowClosed, ResolveQuery, ValueOf;
    if s !in ctx.reports {
      if s !in w.reports {
        assert Missing(w, u, s);
      } else {
        QueryFails(w, all, ctx, w.reports[s].query, u, left);
      }
    }
  }

  lemma {:induction false} QueryFails(w: World, all: iset<Use>, ctx: Context, q: string, u: Use, left: nat)
    requires FollowClosed(w, all) && u in all && LeadsTo(w, u, q)
    ensures FailsForReal(w, all, ResolveQuery(w, ctx, q, left))
    decreases left, 1, 0
  {
    hide ResolveDefs, FollowClosed, ValueOf;
    if q !in ctx.queries {
      if q !in w.queries {
        assert Missing(w, u, q);
      } else if left > 0 {
        OwnDefaults(w, all, u, q);
        DefsFail(w, all, ctx, w.queries[q].inputs, Given([]), left - 1);
      }
    }
  }

  lemma OwnDefaults(w: World, all: iset<Use>, u: Use, q: string)
    requires FollowClosed(w, all) && u in all && LeadsTo(w, u, q) && q in w.queries
    ensures Holds(w.queries[q].inputs, Given([]), all)
  {
    hide LeadsTo;
    forall d | d in w.queries[q].inputs && d.default.Some?
      ensures Use(d, d.default.value) in all
    {
      assert Follows(w, u, Use(d, d.default.value));
    }
  }

  // Every error is real: a given value that no definition asks for, of which it
  // names the first; a chain of fifty queries; or an input that can be reached
  // and has no known type, no value, or refers to something that is not there.
  lemma ErrorsAreReal(w: World, defs: seq<InputDef>, vals: seq<InputVal>)
    requires Resolve(w, defs, vals).Err?
    ensures var e := Resolve(w, defs, vals).error;
      && (e.UnknownInput? <==> Unknown(defs, vals).Some?)
      && (e.UnknownInput? ==> e.name == Unknown(defs, vals).value)
      && (e == Cycle ==> Chain(w, defs, Given(vals), 50))
      && (!e.UnknownInput? ==> Real(w, AllReachable(w, defs, Given(vals)), e))
  {
    hide ResolveDefs, Real, FollowClosed, Holds, AllReachable, Chain;
    ReachableIsClosed(w, defs, Given(vals));
    DefsFail(w, AllReachable(w, defs, Given(vals)), EMPTY, defs, Given(vals), MAX_DEPTH - 1);
    RealIsNotUnknown(w, AllReachable(w, defs, Given(vals)));
    if Resolve(w, defs, vals) == Err(Cycle) {
      DependenciesCycle(w, EMPTY, defs, vals, MAX_DEPTH);
      assert Chain(w, defs, Given(vals), 50);
    }
  }

  lemma RealIsNotUnknown(w: World, all: iset<Use>)
    ensures forall n :: !Real(w, all, UnknownInput(n))
  {
  }

  // ---------------------------------------------------------------- the success

  // The input has a value, and what it refers to is there, with the query that
  // belongs to it.
  ghost predicate InOrder(w: World, u: Use) {
    && ValueOf(w, u).Some?
    && match ValueOf(w, u).value
       case SourceName(s) => s in w.sources && (w.sources[s].view.Some? ==> w.sources[s].view.value in w.queries)
       case QueryName(s) => s in w.queries
       case ReportName(s) => s in w.reports && w.reports[s].query in w.queries
       case _ => true
  }

  lemma InOrderNotMissing(w: World, u: Use)
    requires InOrder(w, u)
    ensures forall n :: !Missing(w, u, n)
  {
    hide KindOf;
  }

  lemma NoValueNotInOrder(w: World, u: Use)
    requires KindOf(u.def) == OtherKind || ValueOf(w, u).None?
    ensures !InOrder(w, u)
  {
  }

  // A resolution succeeds if all given values are asked for, all inputs that can
  // be reached are in order, and no chain of queries is as long as fifty.
  lemma ResolutionSucceeds(w: World, defs: seq<InputDef>, vals: seq<InputVal>)
    requires forall i :: 0 <= i < |vals| ==> Defines(defs, vals[i].name)
    requires forall u :: Reachable(w, defs, Given(vals), u) ==> InOrder(w, u)
    requires !Chain(w, defs, Given(vals), 50)
    ensures Resolve(w, defs, vals).Ok?
  {
    UnknownIsFirst(defs, vals);
    hide Resolve, Chain, InOrder, Missing, ValueOf, KindOf, Reachable;
    var r := Resolve(w, defs, vals);
    if r.Err? {
      ErrorsAreReal(w, defs, vals);
      match r.error {
        case UnsupportedType(t) =>
          var u :| Reachable(w, defs, Given(vals), u) && KindOf(u.def) == OtherKind;
          NoValueNotInOrder(w, u);
        case BadValue(n) =>
          var u :| Reachable(w, defs, Given(vals), u) && ValueOf(w, u).None?;
          NoValueNotInOrder(w, u);
        case NotFound(n) =>
          var u :| Reachable(w, defs, Given(vals), u) && Missing(w, u, n);
          InOrderNotMissing(w, u);
        case _ =>
      }
    }
  }

  lemma RecordInOrder(w: World, ctx: Context, u: Use)
    requires Closed(w, ctx) && OnRecord(w, ctx, u)
    ensures InOrder(w, u)
  {
    hide ValueOf, DefaultsResolved;
    assert RefersInside(ctx, ctx.inputs[u.def.name]);
  }

  // And where no names clash, only then: success shows that all given values are
  // asked for and all inputs that can be reached are in order.
  lemma SuccessShows(w: World, defs: seq<InputDef>, vals: seq<InputVal>)
    requires Resolve(w, defs, vals).Ok? && Consistent(w, defs, Given(vals))
    ensures forall i :: 0 <= i < |vals| ==> Defines(defs, vals[i].name)
    ensures forall u :: Reachable(w, defs, Given(vals), u) ==> InOrder(w, u)
  {
    UnknownIsFirst(defs, vals);
    ResolutionIsClosed(w, defs, vals);
    AllOnRecordIff(w, defs, vals);
    assert Unknown(defs, vals).None?;
    hide Resolve, Closed, InOrder, ValueOf, Reachable, OnRecord, Consistent;
    forall u | Reachable(w, defs, Given(vals), u)
      ensures InOrder(w, u)
    {
      RecordInOrder(w, Resolve(w, defs, vals).ctx, u);
    }
  }

  // ------------------------------------------------------------- a false alarm

  // The only input leads to a query, whose only input leads to a query, and so
  // on, over k queries.
  ghost predicate Straight(w: World, defs: seq<InputDef>, k: nat)
    decreases k
  {
    k == 0
    || (|defs| == 1 && defs[0].default.Some?
        && exists q ::
             ValueOf(w, Use(defs[0], defs[0].default.value)) == Some(QueryName(q)) && q in w.queries
             && Straight(w, w.queries[q].inputs, k - 1))
  }

  lemma {:induction false} StraightFails(w: World, defs: seq<InputDef>, k: nat)
    requires Straight(w, defs, k)
    ensures ResolveDependencies(w, EMPTY, defs, [], k) == Err(Cycle)
    decreases k
  {
    hide ResolveInput, ValueOf;
    if k > 0 {
      var u := Use(defs[0], defs[0].default.value);
      var q :| ValueOf(w, u) == Some(QueryName(q)) && q in w.queries && Straight(w, w.queries[q].inputs, k - 1);
      StraightFails(w, w.queries[q].inputs, k - 1);
      InputIs(w, EMPTY, u, k - 1);
      assert ResolveQuery(w, EMPTY, q, k - 1) == Err(Cycle);
      assert defs == [defs[0]];
      OneDef(w, EMPTY, defs[0], Given([]), k - 1);
      OwnInputs(w, EMPTY, defs, k);
    }
  }

  // Fifty queries in a row are reported as a cycle, even if there is none.
  lemma FiftyInARow(w: World, defs: seq<InputDef>)
    requires Straight(w, defs, 50)
    ensures Resolve(w, defs, []) == Err(Cycle)
  {
    hide ResolveDependencies;
    StraightFails(w, defs, 50);
  }
}
