// The dependency resolver of report queries: mutual recursion over queries, data
// sources and reports that fills one shared context.
module Dependencies {
  import opened Options

  const MAX_DEPTH: nat := 50

  // An input definition; the default is the raw JSON text.
  datatype InputDef = InputDef(name: string, typ: string, required: bool, default: Option<string>)
  datatype InputVal = InputVal(name: string, value: Option<string>)

  datatype Query = Query(inputs: seq<InputDef>)
  datatype DataSource = DataSource(view: Option<string>)
  datatype Report = Report(query: string)

  // The resources of a namespace, by name, and json.Unmarshal into a string, a
  // time and an int.
  datatype World = World(queries: map<string, Query>, sources: map<string, DataSource>, reports: map<string, Report>,
                         asString: string -> Option<string>, asTime: string -> Option<int>,
                         asInt: string -> Option<int>)

  datatype Error = Cycle | UnknownInput(name: string) | UnsupportedType(typ: string) | BadValue(name: string)
    | NotFound(name: string)

  datatype Value = Text(s: string) | Time(t: int) | Number(n: int) | SourceName(s: string) | QueryName(s: string)
    | ReportName(s: string)

  // The resolver context: what has been listed and which inputs are resolved.
  datatype Context = Context(queries: set<string>, sources: set<string>, reports: set<string>,
                             inputs: map<string, Value>)

  datatype Result = Ok(ctx: Context) | Err(error: Error)

  const EMPTY := Context({}, {}, {}, map[])

  // strings.ToLower, as far as its result can be ASCII.
  function LowerChar(c: char): char {
    if 'A' <= c <= 'Z' then (c as int + 32) as char
    else if c == '\U{0130}' then 'i'
    else if c == '\U{212A}' then 'k'
    else c
  }

  function Lower(s: string): string {
    seq(|s|, i requires 0 <= i < |s| => LowerChar(s[i]))
  }

  datatype Kind = StringKind | TimeKind | IntKind | SourceKind | QueryKind | ReportKind | OtherKind

  function KindOf(d: InputDef): Kind {
    var t := Lower(d.typ);
    if d.name == "ReportingStart" || d.name == "ReportingEnd" then TimeKind
    else if t == "" || t == "string" then StringKind
    else if t == "time" then TimeKind
    else if t == "int" || t == "integer" then IntKind
    else if t == "reportdatasource" then SourceKind
    else if t == "reportquery" then QueryKind
    else if t == "report" then ReportKind
    else OtherKind
  }

  function Names(defs: seq<InputDef>): set<string> {
    set d | d in defs :: d.name
  }

  // givenInputs: the last value given for each name.
  function Given(vals: seq<InputVal>): map<string, Option<string>> {
    if vals == [] then map[] else Given(vals[..|vals| - 1])[vals[|vals| - 1].name := vals[|vals| - 1].value]
  }

  // The first given value that no definition asks for.
  function Unknown(defs: seq<InputDef>, vals: seq<InputVal>): Option<string> {
    if vals == [] then None
    else if vals[0].name !in Names(defs) then Some(vals[0].name)
    else Unknown(defs, vals[1..])
  }

  // The raw value of an input: the given one, or else the default.
  function RawValue(d: InputDef, given: map<string, Option<string>>): Option<string> {
    if d.name in given && given[d.name].Some? then given[d.name] else d.default
  }

  function Note(r: Result, name: string, v: Value): Result {
    if r.Err? then r else Ok(r.ctx.(inputs := r.ctx.inputs[name := v]))
  }

  // ------------------------------------------------------ the resolver, on values

  // left is maxDepth - depth.
  function ResolveDependencies(w: World, ctx: Context, defs: seq<InputDef>, vals: seq<InputVal>, left: nat): Result
    decreases left, 0, 0
  {
    if left == 0 then Err(Cycle)
    else if Unknown(defs, vals).Some? then Err(UnknownInput(Unknown(defs, vals).value))
    else ResolveDefs(w, ctx, defs, Given(vals), left - 1)
  }

  function ResolveDefs(w: World, ctx: Context, defs: seq<InputDef>, given: map<string, Option<string>>, left: nat)
    : Result
    decreases left, 4, |defs|
  {
    if defs == [] then Ok(ctx)
    else if defs[0].name in ctx.inputs || RawValue(defs[0], given).None? then
      ResolveDefs(w, ctx, defs[1..], given, left)
    else
      var r := ResolveInput(w, ctx, defs[0], RawValue(defs[0], given).value, left);
      if r.Err? then r else ResolveDefs(w, r.ctx, defs[1..], given, left)
  }

  function ResolveInput(w: World, ctx: Context, d: InputDef, raw: string, left: nat): Result
    decreases left, 3, 0
  {
    match KindOf(d)
    case StringKind =>
      if w.asString(raw).None? then Err(BadValue(d.name)) else Note(Ok(ctx), d.name, Text(w.asString(raw).value))
    case TimeKind =>
      if w.asTime(raw).None? then Err(BadValue(d.name)) else Note(Ok(ctx), d.name, Time(w.asTime(raw).value))
    case IntKind =>
      if w.asInt(raw).None? then Err(BadValue(d.name)) else Note(Ok(ctx), d.name, Number(w.asInt(raw).value))
    case OtherKind => Err(UnsupportedType(Lower(d.typ)))
    case SourceKind =>
      if w.asString(raw).None? then Err(BadValue(d.name))
      else
        var name := w.asString(raw).value;
        Note(ResolveDataSource(w, ctx, name, left), d.name, SourceName(name))
    case QueryKind =>
      if w.asString(raw).None? then Err(BadValue(d.name))
      else
        var name := w.asString(raw).value;
        Note(ResolveQuery(w, ctx, name, left), d.name, QueryName(name))
    case ReportKind =>
      if w.asString(raw).None? then Err(BadValue(d.name))
      else
        var name := w.asString(raw).value;
        Note(ResolveReport(w, ctx, name, left), d.name, ReportName(name))
  }

  function ResolveDataSource(w: World, ctx: Context, name: string, left: nat): Result
    decreases left, 2, 0
  {
    if name in ctx.sources then Ok(ctx)
    else if name !in w.sources then Err(NotFound(name))
    else
      var r := if w.sources[name].view.Some? then ResolveQuery(w, ctx, w.sources[name].view.value, left) else Ok(ctx);
      if r.Err? then r else Ok(r.ctx.(sources := r.ctx.sources + {name}))
  }

  function ResolveReport(w: World, ctx: Context, name: string, left: nat): Result
    decreases left, 2, 0
  {
    if name in ctx.reports then Ok(ctx)
    else if name !in w.reports then Err(NotFound(name))
    else
      var r := ResolveQuery(w, ctx, w.reports[name].query, left);
      if r.Err? then r else Ok(r.ctx.(reports := r.ctx.reports + {name}))
  }

  function ResolveQuery(w: World, ctx: Context, name: string, left: nat): Result
    decreases left, 1, 0
  {
    if name in ctx.queries then Ok(ctx)
    else if name !in w.queries then Err(NotFound(name))
    else
      var r := ResolveDependencies(w, ctx, w.queries[name].inputs, [], left);
      if r.Err? then r else Ok(r.ctx.(queries := r.ctx.queries + {name}))
  }

  // The entry point.
  function Resolve(w: World, defs: seq<InputDef>, vals: seq<InputVal>): Result {
    ResolveDependencies(w, EMPTY, defs, vals, MAX_DEPTH)
  }

  // --------------------------------------------------------------- the object

  // The shared accumulators. On an error their contents are thrown away.
  class ResolverContext {
    const w: World
    var queries: set<string>
    var sources: set<string>
    var reports: set<string>
    var inputs: map<string, Value>

    ghost function Value(): Context
      reads this
    {
      Context(queries, sources, reports, inputs)
    }

    ghost predicate Agrees(r: Result, err: Option<Error>)
      reads this
    {
      if r.Ok? then err == None && Value() == r.ctx else err == Some(r.error)
    }

    constructor (w: World)
      ensures this.w == w && Value() == EMPTY
    {
      this.w := w;
      queries, sources, reports, inputs := {}, {}, {}, map[];
    }

    method Dependencies(defs: seq<InputDef>, vals: seq<InputVal>, left: nat) returns (err: Option<Error>)
      modifies this
      ensures Agrees(ResolveDependencies(w, old(Value()), defs, vals, left), err)
      decreases left, 0, 0
    {
      hide ResolveDefs, ResolveInput;
      if left == 0 {
        return Some(Cycle);
      }
      var unknown, given := CheckGiven(defs, vals);
      if unknown.Some? {
        return Some(UnknownInput(unknown.value));
      }
      err := Inputs(defs, given, left - 1);
    }

    // The loop over the input definitions.
    method Inputs(defs: seq<InputDef>, given: map<string, Option<string>>, left: nat) returns (err: Option<Error>)
      modifies this
      ensures Agrees(ResolveDefs(w, old(Value()), defs, given, left), err)
      decreases left, 4, 0
    {
      hide ResolveInput, RawValue;
      var i := 0;
      ghost var rest := defs;
      while i < |defs|
        invariant i <= |defs| && rest == defs[i..]
        invariant ResolveDefs(w, Value(), rest, given, left) == ResolveDefs(w, old(Value()), defs, given, left)
      {
        var d := defs[i];
        assert rest[0] == d;
        if d.name !in inputs {
          var raw := RawValue(d, given);
          if raw.Some? {
            err := Input(d, raw.value, left);
            if err.Some? {
              return;
            }
          }
        }
        rest := rest[1..];
        i := i + 1;
      }
      err := None;
    }

    method Input(d: InputDef, raw: string, left: nat) returns (err: Option<Error>)
      modifies this
      ensures Agrees(ResolveInput(w, old(Value()), d, raw, left), err)
      decreases left, 3, 0
    {
      hide ResolveQuery, ResolveReport, ResolveDataSource, KindOf;
      var kind := KindOf(d);
      err := None;
      if kind == OtherKind {
        return Some(UnsupportedType(Lower(d.typ)));
      }
      if kind == TimeKind {
        if w.asTime(raw).None? {
          return Some(BadValue(d.name));
        }
        inputs := inputs[d.name := Time(w.asTime(raw).value)];
        return;
      }
      if kind == IntKind {
        if w.asInt(raw).None? {
          return Some(BadValue(d.name));
        }
        inputs := inputs[d.name := Number(w.asInt(raw).value)];
        return;
      }
      if w.asString(raw).None? {
        return Some(BadValue(d.name));
      }
      var name := w.asString(raw).value;
      var value := Text(name);
      if kind == SourceKind {
        value := SourceName(name);
        err := DataSourceNamed(name, left);
      } else if kind == QueryKind {
        value := QueryName(name);
        err := QueryNamed(name, left);
      } else if kind == ReportKind {
        value := ReportName(name);
        err := ReportNamed(name, left);
      }
      if err.None? {
        inputs := inputs[d.name := value];
      }
    }

    method DataSourceNamed(name: string, left: nat) returns (err: Option<Error>)
      modifies this
      ensures Agrees(ResolveDataSource(w, old(Value()), name, left), err)
      decreases left, 2, 0
    {
      hide ResolveQuery;
      err := None;
      if name in sources {
        return;
      }
      if name !in w.sources {
        return Some(NotFound(name));
      }
      if w.sources[name].view.Some? {
        err := QueryNamed(w.sources[name].view.value, left);
        if err.Some? {
          return;
        }
      }
      sources := sources + {name};
    }

    method ReportNamed(name: string, left: nat) returns (err: Option<Error>)
      modifies this
      ensures Agrees(ResolveReport(w, old(Value()), name, left), err)
      decreases left, 2, 0
    {
      hide ResolveQuery;
      err := None;
      if name in reports {
        return;
      }
      if name !in w.reports {
        return Some(NotFound(name));
      }
      err := QueryNamed(w.reports[name].query, left);
      if err.None? {
        reports := reports + {name};
      }
    }

    method QueryNamed(name: string, left: nat) returns (err: Option<Error>)
      modifies this
      ensures Agrees(ResolveQuery(w, old(Value()), name, left), err)
      decreases left, 1, 0
    {
      hide ResolveDependencies;
      err := None;
      if name in queries {
        return;
      }
      if name !in w.queries {
        return Some(NotFound(name));
      }
      err := Dependencies(w.queries[name].inputs, [], left);
      if err.None? {
        queries := queries + {name};
      }
    }
  }

  // The loop over the given values.
  method CheckGiven(defs: seq<InputDef>, vals: seq<InputVal>)
    returns (unknown: Option<string>, given: map<string, Option<string>>)
    ensures unknown == Unknown(defs, vals)
    ensures unknown.None? ==> given == Given(vals)
  {
    given := map[];
    var i := 0;
    ghost var rest, seen: seq<InputVal> := vals, [];
    while i < |vals|
      invariant i <= |vals| && rest == vals[i..] && seen == vals[..i]
      invariant Unknown(defs, rest) == Unknown(defs, vals) && given == Given(seen)
    {
      var val := vals[i];
      assert rest[0] == val;
      var found := false;
      for j := 0 to |defs|
        invariant found <==> exists k :: 0 <= k < j && defs[k].name == val.name
      {
        if defs[j].name == val.name {
          found := true;
          break;
        }
      }
      assert found <==> val.name in Names(defs);
      if !found {
        return Some(val.name), given;
      }
      given := given[val.name := val.value];
      assert (seen + [val])[..|seen|] == seen;
      seen := seen + [val];
      rest := rest[1..];
      i := i + 1;
    }
    assert seen == vals;
    unknown := None;
  }
}
