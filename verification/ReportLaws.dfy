// What a scheduled report does over every sequence of reconciles.
module ReportLaws {
  import opened Reports
  import opened Sequences
  import opened Options

  // time.Time{}; times are counted from it.
  const ZERO_TIME: int := 0

  // What all schedules have in common: the next activation is later, on a whole
  // second, or there is none.
  ghost predicate Ticks(next: int -> int) {
    forall t :: next(t) == ZERO_TIME || (next(t) > t && next(t) % SECOND == 0)
  }

  // A schedule of fixed activations, of which next gives the least. Schedules of
  // the form @every are not, as their activations depend on where they start.
  ghost predicate IsCron(next: int -> int) {
    Ticks(next) && forall t, u :: t <= u < next(t) ==> next(u) == next(t)
  }

  ghost predicate Activation(next: int -> int, a: int) {
    next(a - 1) == a
  }

  // A time that is stored and read back unchanged: metav1.Time keeps seconds.
  ghost predicate OnSeconds(t: int) {
    t >= ZERO_TIME && t % SECOND == 0
  }

  ghost predicate WholeSeconds(t: int) {
    OnSeconds(t) && t != ZERO_TIME
  }

  lemma NextIsActivation(next: int -> int, t: int)
    requires IsCron(next) && next(t) > t
    ensures Activation(next, next(t))
  {
    assert next(next(t) - 1) == next(t);
  }

  // There is no activation between t and next(t).
  lemma NoneBetween(next: int -> int, t: int, a: int)
    requires IsCron(next) && Activation(next, a) && t < a
    ensures next(t) <= a
  {
    assert t <= a - 1 < next(t) ==> next(a - 1) == next(t);
  }

  // ------------------------------------------------------------------ the panic

  // The time from which the next period is computed.
  function From(spec: Spec, st: Status, now: int): int
    requires spec.schedule.Every?
  {
    if st.last.Some? then st.last.value
    else if spec.reportingStart.Some? then spec.reportingStart.value
    else if st.next.Some? then st.next.value
    else TruncMs(spec.schedule.next(now))
  }

  // A valid report makes getReportPeriod panic exactly if its schedule names an
  // activation before the time it is asked about.
  lemma PanicsIff(spec: Spec, st: Status, turn: Turn)
    requires IsValid(spec, turn)
    ensures GetPeriod(spec, st, turn.now) == Panic <==>
      spec.schedule.Every?
      && var from := From(spec, st, turn.now); TruncMs(spec.schedule.next(from)) < TruncMs(from)
  {
    hide TruncMs;
  }

  lemma TruncMsOfWhole(t: int)
    ensures t % SECOND == 0 ==> TruncMs(t) == t
    ensures t > ZERO_TIME && t % SECOND == 0 ==> TruncMs(ZERO_TIME) < t
  {
    assert t % SECOND == 0 ==> t == SECOND * (t / SECOND) == MILLISECOND * (1000 * (t / SECOND));
  }

  // That is, exactly if there is no further activation and the time is not the
  // zero time itself; and nothing is recorded, so that it panics again.
  lemma PanicsWhenExhausted(spec: Spec, st: Status, turn: Turn)
    requires IsValid(spec, turn) && spec.schedule.Every? && Ticks(spec.schedule.next)
    requires OnSeconds(From(spec, st, turn.now))
    ensures var next, from := spec.schedule.next, From(spec, st, turn.now);
      && (GetPeriod(spec, st, turn.now) == Panic <==> next(from) == ZERO_TIME && from != ZERO_TIME)
      && (GetPeriod(spec, st, turn.now) == Panic ==> Reconcile(spec, st, turn) == Reconciled(st, None))
  {
    var next, from := spec.schedule.next, From(spec, st, turn.now);
    PanicsIff(spec, st, turn);
    TruncMsOfWhole(from);
    TruncMsOfWhole(next(from));
    hide TruncMs, GetPeriod;
  }

  // The thirtieth of February, say.
  lemma NeverActivePanics(turn: Turn)
    requires turn.dependenciesOk
    ensures var spec := Spec(Every((t: int) => ZERO_TIME), Some(5 * SECOND), None, false);
      IsValid(spec, turn) && GetPeriod(spec, Status(None, None, None, false), turn.now) == Panic
  {
    PanicsWhenExhausted(Spec(Every((t: int) => ZERO_TIME), Some(5 * SECOND), None, false),
                        Status(None, None, None, false), turn);
  }

  // Without a start the same schedule does not panic: it is asked for the time
  // after the zero time, and the empty period there can be generated.
  lemma NeverActiveUnstarted(turn: Turn)
    requires turn.now >= ZERO_TIME && turn.dependenciesOk && turn.sources == [] && turn.subReports == []
    requires turn.tableOk && turn.runningWriteOk && turn.renderOk
    ensures var spec := Spec(Every((t: int) => ZERO_TIME), None, None, false);
      && IsValid(spec, turn) && IsCron(spec.schedule.next)
      && Reconcile(spec, Status(None, None, None, false), turn).generated == Some(Period(ZERO_TIME, ZERO_TIME))
  {
  }

  // Any scheduled report's period starts at the time it is computed from, and
  // runs forward exactly when there is a further activation and reportingEnd is
  // not at or before that time.
  lemma ForwardIff(spec: Spec, st: Status, now: int)
    requires spec.schedule.Every? && Ticks(spec.schedule.next) && OnSeconds(From(spec, st, now))
    ensures var r, from, next := GetPeriod(spec, st, now), From(spec, st, now), spec.schedule.next;
      r.Found? ==>
        && r.period.start == from
        && (from < r.period.end <==>
              next(from) != ZERO_TIME && (spec.reportingEnd.None? || from < spec.reportingEnd.value))
  {
    TruncMsOfWhole(From(spec, st, now));
    TruncMsOfWhole(spec.schedule.next(From(spec, st, now)));
    hide TruncMs;
  }

  // ----------------------------------------------------------------- one step

  // GenerateReport is reached exactly if the report is not finished, is valid,
  // has a period, its table is found or made, its period is over and its
  // dependencies are met or it is run immediately, and the status write and the
  // rendering before it succeed. It is then given that period.
  lemma GeneratesIff(spec: Spec, st: Status, turn: Turn)
    ensures var r := Reconcile(spec, st, turn);
      var p := GetPeriod(spec, st, turn.now);
      && (r.generated.Some? <==>
            && !IsFinished(spec, st) && IsValid(spec, turn) && p.Found? && turn.tableOk
            && (spec.runImmediately || (p.period.end <= turn.now && Met(turn, p.period)))
            && turn.runningWriteOk && turn.renderOk)
      && (r.generated.Some? ==> r.generated.value == p.period)
  {
  }

  // ---------------------------------------------------------------- one report

  // A report with a history: the recorded boundaries, the periods handed to
  // GenerateReport, those for which it succeeded, and every reportingEnd that was
  // ever in force.
  datatype History = History(spec: Spec, status: Status, bounds: seq<int>, generated: seq<Period>, done: set<Period>,
                             ends: set<int>)

  // A reconcile, or an edit of spec.reportingEnd.
  datatype Event = Reconciles(turn: Turn) | MovesEnd(end: Option<int>)

  function Start(spec: Spec): History
    requires spec.reportingStart.Some?
  {
    History(spec, Status(None, None, None, false), [spec.reportingStart.value], [], {},
            if spec.reportingEnd.Some? then {spec.reportingEnd.value} else {})
  }

  function Apply(h: History, ev: Event): History {
    match ev
    case MovesEnd(end) =>
      h.(spec := h.spec.(reportingEnd := end), ends := h.ends + if end.Some? then {end.value} else {})
    case Reconciles(turn) =>
      var r := Reconcile(h.spec, h.status, turn);
      History(h.spec, r.status,
              if r.status.last != h.status.last && r.status.last.Some?
              then h.bounds + [r.status.last.value] else h.bounds,
              if r.generated.Some? then h.generated + [r.generated.value] else h.generated,
              if r.generated.Some? && turn.generateOk then h.done + {r.generated.value} else h.done,
              h.ends)
  }

  function Run(h: History, evs: seq<Event>): History
    decreases |evs|
  {
    if evs == [] then h else Run(Apply(h, evs[0]), evs[1..])
  }

  // reportingEnd is only ever moved strictly past the last report time, and is a
  // whole number of seconds.
  ghost predicate Orderly(h: History, evs: seq<Event>)
    decreases |evs|
  {
    evs == []
    || ((evs[0].MovesEnd? && evs[0].end.Some? ==>
           WholeSeconds(evs[0].end.value) && (h.status.last.Some? ==> h.status.last.value < evs[0].end.value))
        && Orderly(Apply(h, evs[0]), evs[1..]))
  }

  // Where the next period starts.
  function Boundary(h: History): int
    requires h.spec.reportingStart.Some?
  {
    if h.status.last.Some? then h.status.last.value else h.spec.reportingStart.value
  }

  // ------------------------------------------------------------- the invariant

  ghost predicate Plain(h: History, next: int -> int, start: int) {
    && h.spec.schedule == Every(next) && Ticks(next)
    && h.spec.reportingStart == Some(start) && WholeSeconds(Boundary(h))
    && (h.spec.reportingEnd.Some? ==> WholeSeconds(h.spec.reportingEnd.value) && h.spec.reportingEnd.value in h.ends)
  }

  ghost predicate IsFinishedCond(st: Status) {
    st.cond == Some(Condition(false, Finished))
  }

  // Once there is a last report time, the end lies behind it, or the report is
  // finished exactly there; before, it is not finished.
  ghost predicate EndAhead(h: History) {
    && (h.status.last.None? ==> !IsFinishedCond(h.status))
    && (h.spec.reportingEnd.Some? && h.status.last.Some? ==>
          h.status.last.value < h.spec.reportingEnd.value
          || (h.status.last.value == h.spec.reportingEnd.value && IsFinishedCond(h.status)))
  }

  // b is the activation after a, or an end that was in force before that.
  ghost predicate IsStep(next: int -> int, a: int, b: int, ends: set<int>) {
    a < b <= next(a) && (b == next(a) || b in ends)
  }

  ghost predicate InSteps(next: int -> int, bounds: seq<int>, ends: set<int>) {
    forall i, j :: 0 <= i && i + 1 == j && j < |bounds| ==> IsStep(next, bounds[i], bounds[j], ends)
  }

  // The boundaries go from the start up to where the next period starts, each one
  // the activation after the one before, or an end that came before that.
  ghost predicate Stepwise(h: History, next: int -> int, start: int) {
    && h.spec.reportingStart.Some? && h.bounds != []
    && h.bounds[0] == start && h.bounds[|h.bounds| - 1] == Boundary(h)
    && InSteps(next, h.bounds, h.ends)
  }

  // Between one boundary and the next lies a period whose generation succeeded.
  ghost predicate Earned(h: History) {
    forall i, j :: 0 <= i && i + 1 == j && j < |h.bounds| ==> Period(h.bounds[i], h.bounds[j]) in h.done
  }

  // Each generated period is a retry of the one before it or starts at its end.
  ghost predicate Continuous(ps: seq<Period>, start: int) {
    && (ps != [] ==> ps[0].start == start)
    && (forall i :: 0 <= i < |ps| ==> ps[i].start < ps[i].end)
    && (forall i :: 0 <= i < |ps| - 1 ==> ps[i + 1].start == ps[i].start || ps[i + 1].start == ps[i].end)
  }

  ghost predicate Inv(h: History, next: int -> int, start: int) {
    && Plain(h, next, start) && EndAhead(h) && Stepwise(h, next, start) && Earned(h)
    && Continuous(h.generated, start)
    && (if h.generated == [] then Boundary(h) == start
        else var p := h.generated[|h.generated| - 1]; Boundary(h) == p.start || Boundary(h) == p.end)
  }

  // ------------------------------------------------------------------ the steps

  // The end of the period that starts at b.
  function PeriodEnd(spec: Spec, next: int -> int, b: int): int {
    if spec.reportingEnd.Some? && next(b) > spec.reportingEnd.value then spec.reportingEnd.value else next(b)
  }

  // What one reconcile of such a report can do: nothing to the last report time,
  // or record the end of the period that starts at it, if its generation succeeds.
  ghost predicate Moves(h: History, next: int -> int, turn: Turn, r: Reconciled)
    requires h.spec.reportingStart.Some?
  {
    var b := Boundary(h);
    var end := PeriodEnd(h.spec, next, b);
    && (r.generated.Some? ==> r.generated.value == Period(b, end) && b < end && b < next(b))
    && (r.status.last == h.status.last || (r.generated.Some? && turn.generateOk && r.status.last == Some(end)))
    && (r.status.last != h.status.last && h.spec.reportingEnd == Some(end) ==> IsFinishedCond(r.status))
    && (r.status.last.None? && IsFinishedCond(r.status) ==> IsFinishedCond(h.status))
  }

  lemma PeriodIs(h: History, next: int -> int, start: int, now: int)
    requires Plain(h, next, start)
    ensures var b := Boundary(h);
      GetPeriod(h.spec, h.status, now) ==
        if next(b) == ZERO_TIME then Panic else Found(Period(b, PeriodEnd(h.spec, next, b)), h.status)
    ensures next(Boundary(h)) == ZERO_TIME || Boundary(h) < next(Boundary(h))
  {
    TruncMsOfWhole(Boundary(h));
    TruncMsOfWhole(next(Boundary(h)));
    hide TruncMs;
  }

  lemma ReconcileMoves(h: History, next: int -> int, start: int, turn: Turn)
    requires h.spec.reportingStart.Some? && Inv(h, next, start)
    ensures Moves(h, next, turn, Reconcile(h.spec, h.status, turn))
    ensures IsFinished(h.spec, h.status) ==> Reconcile(h.spec, h.status, turn) == Reconciled(h.status, None)
  {
    hide Stepwise, Earned, Continuous, GetPeriod, Ticks;
    PeriodIs(h, next, start, turn.now);
  }

  lemma ExtendStepwise(h: History, g: History, next: int -> int, start: int, end: int)
    requires Stepwise(h, next, start) && g.spec.reportingStart == h.spec.reportingStart
    requires g.bounds == h.bounds + [end] && g.ends == h.ends && Boundary(g) == end
    requires IsStep(next, Boundary(h), end, h.ends)
    ensures Stepwise(g, next, start)
  {
    hide IsStep;
    forall i, j | 0 <= i && i + 1 == j && j < |g.bounds|
      ensures IsStep(next, g.bounds[i], g.bounds[j], g.ends)
    {
      if j < |h.bounds| {
        assert IsStep(next, h.bounds[i], h.bounds[j], h.ends);
      }
    }
  }

  lemma ExtendEarned(h: History, g: History, start: int, end: int)
    requires Earned(h) && g.bounds == h.bounds + [end] && h.bounds != [] && h.bounds[|h.bounds| - 1] == start
    requires Period(start, end) in g.done && h.done <= g.done
    ensures Earned(g)
  {
  }

  lemma ReconcileKeepsInv(h: History, next: int -> int, start: int, turn: Turn)
    requires Inv(h, next, start)
    ensures Inv(Apply(h, Reconciles(turn)), next, start)
  {
    hide Reconcile, Continuous;
    ReconcileMoves(h, next, start, turn);
    var r := Reconcile(h.spec, h.status, turn);
    var g := Apply(h, Reconciles(turn));
    var b := Boundary(h);
    if r.generated.Some? {
      ContinuousAppend(h.generated, start, r.generated.value);
    }
    if r.status.last != h.status.last {
      var end := r.status.last.value;
      assert WholeSeconds(end);
      hide Ticks;
      ExtendEarned(h, g, b, end);
      ExtendStepwise(h, g, next, start, end);
    } else {
      hide Ticks;
      SameStepwise(h, g, next, start);
      if IsFinished(h.spec, h.status) {
        assert r == Reconciled(h.status, None);
      }
    }
    assert EndAhead(g);
  }

  lemma ContinuousAppend(ps: seq<Period>, start: int, p: Period)
    requires Continuous(ps, start) && p.start < p.end
    requires if ps == [] then p.start == start
             else p.start == ps[|ps| - 1].start || p.start == ps[|ps| - 1].end
    ensures Continuous(ps + [p], start)
  {
  }

  lemma SameStepwise(h: History, g: History, next: int -> int, start: int)
    requires Stepwise(h, next, start) && g.bounds == h.bounds && h.ends <= g.ends
    requires g.status.last == h.status.last && g.spec.reportingStart == h.spec.reportingStart
    ensures Stepwise(g, next, start)
  {
  }

  lemma MoveKeepsInv(h: History, next: int -> int, start: int, end: Option<int>)
    requires Inv(h, next, start)
    requires end.Some? ==> WholeSeconds(end.value) && (h.status.last.Some? ==> h.status.last.value < end.value)
    ensures Inv(Apply(h, MovesEnd(end)), next, start)
  {
    hide Stepwise, Ticks;
    SameStepwise(h, Apply(h, MovesEnd(end)), next, start);
  }

  lemma {:induction false} InvHolds(h: History, next: int -> int, start: int, evs: seq<Event>)
    requires Inv(h, next, start) && Orderly(h, evs)
    ensures Inv(Run(h, evs), next, start)
    decreases |evs|
  {
    hide Inv, Reconcile;
    if evs != [] {
      match evs[0] {
        case Reconciles(turn) => ReconcileKeepsInv(h, next, start, turn);
        case MovesEnd(end) => MoveKeepsInv(h, next, start, end);
      }
      InvHolds(Apply(h, evs[0]), next, start, evs[1..]);
    }
  }

  lemma StartInv(spec: Spec, next: int -> int, start: int)
    requires spec.schedule == Every(next) && Ticks(next) && spec.reportingStart == Some(start)
    requires WholeSeconds(start) && (spec.reportingEnd.Some? ==> WholeSeconds(spec.reportingEnd.value))
    ensures Inv(Start(spec), next, start)
  {
  }

  // Moving reportingEnd back before the last report time is not caught: the next
  // reconcile generates a period that runs backwards and sets the clock back.
  lemma MovedBackRunsBackwards(h: History, next: int -> int, start: int, end: int, turn: Turn)
    requires Plain(h, next, start) && h.spec.reportingEnd == Some(end) && start < end
    requires h.status.last.Some? && end < h.status.last.value && !IsFinishedCond(h.status)
    requires next(h.status.last.value) != ZERO_TIME && turn.tableOk
    requires end <= turn.now && Met(turn, Period(h.status.last.value, end)) && turn.dependenciesOk
    requires turn.runningWriteOk && turn.renderOk && turn.generateOk && turn.finalWriteOk
    ensures var r := Reconcile(h.spec, h.status, turn);
      r.generated == Some(Period(h.status.last.value, end)) && r.status.last == Some(end)
  {
    PeriodIs(h, next, start, turn.now);
    hide GetPeriod;
  }

  // ------------------------------------------------------------------ theorems

  // Over every run: the generated periods follow on from each other or retry,
  // each recorded boundary is the activation after the one before it or an end
  // that was in force, and what lies between two was generated with success.
  lemma PeriodsTile(spec: Spec, next: int -> int, start: int, evs: seq<Event>)
    requires spec.schedule == Every(next) && Ticks(next) && spec.reportingStart == Some(start)
    requires WholeSeconds(start) && (spec.reportingEnd.Some? ==> WholeSeconds(spec.reportingEnd.value))
    requires Orderly(Start(spec), evs)
    ensures var h := Run(Start(spec), evs);
      && Continuous(h.generated, start) && Stepwise(h, next, start) && Earned(h)
      && (h.spec.reportingEnd.Some? && h.status.last == h.spec.reportingEnd ==> IsFinishedCond(h.status))
  {
    StartInv(spec, next, start);
    InvHolds(Start(spec), next, start, evs);
  }

  // The boundaries ascend, each one after the start is an activation or an end
  // that was in force, and no activation on the way is missing.
  ghost predicate Complete(h: History, next: int -> int, start: int)
    requires h.spec.reportingStart.Some?
  {
    && (forall i, j :: 0 <= i < j < |h.bounds| ==> h.bounds[i] < h.bounds[j])
    && (forall i :: 0 < i < |h.bounds| ==> Activation(next, h.bounds[i]) || h.bounds[i] in h.ends)
    && (forall a :: Activation(next, a) && start < a <= Boundary(h) ==> a in h.bounds)
  }

  lemma {:induction false} BoundsAscend(next: int -> int, bounds: seq<int>, ends: set<int>, i: nat, j: nat)
    requires i < j < |bounds| && InSteps(next, bounds, ends)
    ensures bounds[i] < bounds[j]
    decreases j
  {
    if i < j - 1 {
      BoundsAscend(next, bounds, ends, i, j - 1);
    }
    assert IsStep(next, bounds[j - 1], bounds[j], ends);
  }

  // The first boundary that is not before a.
  lemma {:induction false} Locate(bounds: seq<int>, a: int, n: nat) returns (i: nat)
    requires n < |bounds| && bounds[0] < a <= bounds[n]
    ensures 0 < i <= n && bounds[i - 1] < a <= bounds[i]
    decreases n
  {
    if bounds[n - 1] < a {
      i := n;
    } else {
      i := Locate(bounds, a, n - 1);
    }
  }

  lemma StepwiseIsComplete(h: History, next: int -> int, start: int)
    requires IsCron(next) && Stepwise(h, next, start)
    ensures Complete(h, next, start)
  {
    forall i, j | 0 <= i < j < |h.bounds|
      ensures h.bounds[i] < h.bounds[j]
    {
      BoundsAscend(next, h.bounds, h.ends, i, j);
    }
    forall i | 0 < i < |h.bounds|
      ensures Activation(next, h.bounds[i]) || h.bounds[i] in h.ends
    {
      assert IsStep(next, h.bounds[i - 1], h.bounds[i], h.ends);
      if h.bounds[i] == next(h.bounds[i - 1]) {
        NextIsActivation(next, h.bounds[i - 1]);
      }
    }
    forall a | Activation(next, a) && start < a <= Boundary(h)
      ensures a in h.bounds
    {
      var i := Locate(h.bounds, a, |h.bounds| - 1);
      NoneBetween(next, h.bounds[i - 1], a);
      assert IsStep(next, h.bounds[i - 1], h.bounds[i], h.ends);
      assert a == h.bounds[i];
    }
  }

  // For cron schedules no activation is skipped.
  lemma NoActivationSkipped(spec: Spec, next: int -> int, start: int, evs: seq<Event>)
    requires spec.schedule == Every(next) && IsCron(next) && spec.reportingStart == Some(start)
    requires WholeSeconds(start) && (spec.reportingEnd.Some? ==> WholeSeconds(spec.reportingEnd.value))
    requires Orderly(Start(spec), evs)
    ensures var h := Run(Start(spec), evs); h.spec.reportingStart.Some? && Complete(h, next, start)
  {
    PeriodsTile(spec, next, start, evs);
    hide Run, Continuous;
    StepwiseIsComplete(Run(Start(spec), evs), next, start);
  }

  ghost predicate OnlyReconciles(evs: seq<Event>) {
    forall i :: 0 <= i < |evs| ==> evs[i].Reconciles?
  }

  lemma {:induction false} SpecStays(h: History, evs: seq<Event>)
    requires OnlyReconciles(evs)
    ensures Run(h, evs).spec == h.spec && Run(h, evs).ends == h.ends && Orderly(h, evs)
    decreases |evs|
  {
    hide Reconcile;
    if evs != [] {
      SpecStays(Apply(h, evs[0]), evs[1..]);
    }
  }

  // The boundaries after t: activation after activation, then the end.
  function Steps(next: int -> int, t: int, end: int): seq<int>
    decreases end - t
  {
    if t < next(t) < end then [next(t)] + Steps(next, next(t), end) else [end]
  }

  lemma {:induction false} BoundsAreSteps(bounds: seq<int>, next: int -> int, end: int, i: nat)
    requires i + 1 < |bounds| && bounds[|bounds| - 1] == end
    requires InSteps(next, bounds, {end})
    ensures bounds[i + 1..] == Steps(next, bounds[i], end)
    decreases |bounds| - i
  {
    var b := bounds[i + 1];
    assert IsStep(next, bounds[i], b, {end});
    if i + 2 < |bounds| {
      BoundsAscend(next, bounds, {end}, i + 1, |bounds| - 1);
      BoundsAreSteps(bounds, next, end, i + 1);
      assert bounds[i + 1..] == [b] + bounds[i + 2..];
    } else {
      assert bounds[i + 1..] == [b];
    }
  }

  // For a report whose end is left alone: once the last report time has reached
  // the end the report is Finished, and the boundaries are the start, activation
  // after activation, and the end; for a cron schedule, exactly the activations
  // strictly between start and end, plus the end.
  lemma FinishedReport(spec: Spec, next: int -> int, start: int, end: int, evs: seq<Event>)
    requires spec.schedule == Every(next) && Ticks(next) && spec.reportingStart == Some(start)
    requires WholeSeconds(start) && spec.reportingEnd == Some(end) && WholeSeconds(end) && start < end
    requires OnlyReconciles(evs) && Run(Start(spec), evs).status.last == Some(end)
    ensures var h := Run(Start(spec), evs);
      && IsFinished(h.spec, h.status) && h.bounds == [start] + Steps(next, start, end)
      && (IsCron(next) ==>
            forall b :: b in h.bounds[1..] <==> (Activation(next, b) && start < b < end) || b == end)
  {
    SpecStays(Start(spec), evs);
    PeriodsTile(spec, next, start, evs);
    hide Run, Reconcile, Continuous, IsCron, Activation, Ticks;
    var h := Run(Start(spec), evs);
    BoundsAreSteps(h.bounds, next, end, 0);
    assert h.bounds == [h.bounds[0]] + h.bounds[1..];
    if IsCron(next) {
      ActivationsBetween(h, next, start, end);
    }
  }

  lemma ActivationsBetween(h: History, next: int -> int, start: int, end: int)
    requires IsCron(next) && Stepwise(h, next, start) && h.ends == {end} && Boundary(h) == end && start < end
    ensures forall b :: b in h.bounds[1..] <==> (Activation(next, b) && start < b < end) || b == end
  {
    StepwiseIsComplete(h, next, start);
    hide IsCron, Stepwise, Complete;
    forall b
      ensures b in h.bounds[1..] <==> (Activation(next, b) && start < b < end) || b == end
    {
      BoundsAre(h, next, start, end, b);
    }
  }

  lemma BoundsAre(h: History, next: int -> int, start: int, end: int, b: int)
    requires Stepwise(h, next, start) && Complete(h, next, start)
    requires h.ends == {end} && Boundary(h) == end && start < end
    ensures b in h.bounds[1..] <==> (Activation(next, b) && start < b < end) || b == end
  {
    var n := |h.bounds| - 1;
    if b in h.bounds[1..] {
      var i :| 1 <= i < |h.bounds| && h.bounds[i] == b;
      assert h.bounds[0] < h.bounds[i];
      assert i < n ==> h.bounds[i] < h.bounds[n];
    }
    if (Activation(next, b) && start < b < end) || b == end {
      assert b in h.bounds by {
        assert h.bounds[n] == end;
      }
      var i :| 0 <= i < |h.bounds| && h.bounds[i] == b;
      assert h.bounds[1..][i - 1] == b;
    }
  }

  // ------------------------------------------------------------------- progress

  // All is well with the reconcile: time is up, the data is there, every step
  // succeeds.
  ghost predicate Favourable(turn: Turn, start: int, end: int) {
    && end <= turn.now && turn.dependenciesOk && Met(turn, Period(start, end)) && turn.tableOk
    && turn.runningWriteOk && turn.renderOk && turn.generateOk && turn.finalWriteOk
  }

  ghost predicate AllFavourable(evs: seq<Event>, start: int, end: int) {
    forall i :: 0 <= i < |evs| ==> evs[i].Reconciles? && Favourable(evs[i].turn, start, end)
  }

  // There is a further activation until the end.
  ghost predicate Lasts(next: int -> int, start: int, end: int) {
    forall t :: start <= t < end ==> next(t) > t
  }

  lemma MetWithin(turn: Turn, p: Period, q: Period)
    requires Met(turn, p) && p.start <= q.start && q.end <= p.end
    ensures Met(turn, q)
  {
  }

  lemma FavourableAdvances(h: History, next: int -> int, start: int, end: int, turn: Turn)
    requires Inv(h, next, start) && h.spec.reportingEnd == Some(end) && start <= Boundary(h) < end
    requires Lasts(next, start, end) && Favourable(turn, start, end)
    ensures var b := Boundary(h);
      Apply(h, Reconciles(turn)).status.last == Some(if next(b) < end then next(b) else end)
  {
    hide Stepwise, Continuous, GetPeriod, Ticks, Met;
    PeriodIs(h, next, start, turn.now);
    var b := Boundary(h);
    MetWithin(turn, Period(start, end), Period(b, PeriodEnd(h.spec, next, b)));
    GeneratesIff(h.spec, h.status, turn);
  }

  lemma {:induction false} FinishedStays(h: History, evs: seq<Event>)
    requires IsFinished(h.spec, h.status) && OnlyReconciles(evs)
    ensures Run(h, evs) == h
    decreases |evs|
  {
    if evs != [] {
      FinishedStays(Apply(h, evs[0]), evs[1..]);
    }
  }

  // From any point of a run, as many favourable reconciles as there are
  // boundaries left finish the report.
  lemma {:induction false} Finishes(h: History, next: int -> int, start: int, end: int, evs: seq<Event>)
    requires Inv(h, next, start) && h.spec.reportingEnd == Some(end) && start <= Boundary(h) < end
    requires Lasts(next, start, end) && AllFavourable(evs, start, end)
    requires |evs| >= |Steps(next, Boundary(h), end)|
    ensures var t := Run(h, evs); t.status.last == Some(end) && IsFinished(t.spec, t.status)
    decreases |evs|
  {
    hide Stepwise, Continuous, Ticks, EndAhead, Reconcile, Lasts, Favourable, IsFinished;
    var turn := evs[0].turn;
    var g := Apply(h, evs[0]);
    FavourableAdvances(h, next, start, end, turn);
    ReconcileKeepsInv(h, next, start, turn);
    if next(Boundary(h)) < end {
      LastsAt(next, start, end, Boundary(h));
      Finishes(g, next, start, end, evs[1..]);
    } else {
      EndIsFinished(g, next, start, end);
      FinishedStays(g, evs[1..]);
    }
  }

  lemma LastsAt(next: int -> int, start: int, end: int, t: int)
    requires Lasts(next, start, end) && start <= t < end
    ensures next(t) > t
  {
  }

  lemma EndIsFinished(h: History, next: int -> int, start: int, end: int)
    requires Inv(h, next, start) && h.spec.reportingEnd == Some(end) && h.status.last == Some(end)
    ensures IsFinished(h.spec, h.status)
  {
  }

  // ------------------------------------------------- reports without a start

  // The next period starts at s unless there is a last report time.
  ghost predicate AnchoredAt(st: Status, s: int) {
    st.last.Some? || st.next == Some(s)
  }

  // The first reconcile of a report without reportingStart that generates a
  // period starts it at the next activation after the clock, or at the zero time
  // if there is none, and records that.
  lemma FirstReconcileAnchors(spec: Spec, st: Status, turn: Turn)
    requires spec.schedule.Every? && spec.reportingStart.None? && st.last.None? && st.next.None?
    requires Ticks(spec.schedule.next) && turn.now >= ZERO_TIME && Reconcile(spec, st, turn).generated.Some?
    ensures var r, from := Reconcile(spec, st, turn), spec.schedule.next(turn.now);
      && (from == ZERO_TIME || turn.now < from)
      && r.generated.value.start == from && AnchoredAt(r.status, from)
  {
    var next := spec.schedule.next;
    GeneratesIff(spec, st, turn);
    TruncMsOfWhole(next(turn.now));
    hide TruncMs;
  }

  // Where the periods of a report without reportingStart start, once that is
  // known: where the first one that was generated does, or the next one will.
  function Anchor(h: History): Option<int> {
    if h.generated != [] then Some(h.generated[0].start) else h.status.next
  }

  // The same history as that of a report with reportingStart s.
  function Tiled(h: History, s: int): History {
    h.(spec := h.spec.(reportingStart := Some(s)), bounds := [s] + h.bounds)
  }

  // A report without reportingStart that has found its start s does what one with
  // that reportingStart would have done.
  ghost predicate Anchored(h: History, next: int -> int, s: int) {
    && h.spec.schedule == Every(next) && h.spec.reportingStart.None?
    && AnchoredAt(h.status, s) && Anchor(h) == Some(s) && Inv(Tiled(h, s), next, s)
    && (h.generated == [] ==> h.status.last.None?)
  }

  lemma SameReconcile(spec: Spec, st: Status, s: int, turn: Turn)
    requires spec.schedule.Every? && spec.reportingStart.None? && AnchoredAt(st, s)
    requires spec.reportingEnd.Some? ==> s < spec.reportingEnd.value
    ensures Reconcile(spec.(reportingStart := Some(s)), st, turn) == Reconcile(spec, st, turn)
    ensures AnchoredAt(Reconcile(spec, st, turn).status, s)
    ensures st.last.None? && Reconcile(spec, st, turn).status.last.None? ==>
      Reconcile(spec, st, turn).status.next == Some(s)
  {
    assert GetPeriod(spec.(reportingStart := Some(s)), st, turn.now) == GetPeriod(spec, st, turn.now);
    assert GetPeriod(spec, st, turn.now).Found? ==> GetPeriod(spec, st, turn.now).status == st;
    hide GetPeriod;
  }

  // The end is after the start, once that is known.
  ghost predicate EndBehind(h: History) {
    Anchor(h).Some? ==>
      && ZERO_TIME < Anchor(h).value
      && (h.spec.reportingEnd.Some? ==> Anchor(h).value < h.spec.reportingEnd.value)
  }

  ghost predicate EndStaysBehind(h: History, evs: seq<Event>)
    decreases |evs|
  {
    EndBehind(h) && (evs == [] || EndStaysBehind(Apply(h, evs[0]), evs[1..]))
  }

  lemma TiledReconcile(h: History, next: int -> int, s: int, turn: Turn)
    requires Anchored(h, next, s) && EndBehind(h)
    ensures Apply(Tiled(h, s), Reconciles(turn)) == Tiled(Apply(h, Reconciles(turn)), s)
    ensures Anchored(Apply(h, Reconciles(turn)), next, s)
  {
    hide Inv, Reconcile;
    var g := Apply(h, Reconciles(turn));
    var r := Reconcile(h.spec, h.status, turn);
    SameReconcile(h.spec, h.status, s, turn);
    if r.status.last.Some? {
      Assoc([s], h.bounds, [r.status.last.value]);
    }
    ReconcileKeepsInv(Tiled(h, s), next, s, turn);
    AnchorKept(h, next, s, turn);
  }

  lemma AnchorKept(h: History, next: int -> int, s: int, turn: Turn)
    requires Anchored(h, next, s) && EndBehind(h)
    ensures var g := Apply(h, Reconciles(turn));
      Anchor(g) == Some(s) && (g.generated == [] ==> g.status.last.None?)
  {
    hide Reconcile, Plain, EndAhead, Stepwise;
    SameReconcile(h.spec, h.status, s, turn);
    ReconcileMoves(Tiled(h, s), next, s, turn);
    assert h.generated != [] ==> Tiled(h, s).generated[0].start == s;
  }

  // Nothing is known of the start yet.
  ghost predicate Unanchored(h: History, next: int -> int) {
    && h.spec.schedule == Every(next) && Ticks(next) && h.spec.reportingStart.None?
    && h.status.last.None? && h.status.next.None? && !IsFinishedCond(h.status)
    && h.bounds == [] && h.generated == []
    && (h.spec.reportingEnd.Some? ==> WholeSeconds(h.spec.reportingEnd.value) && h.spec.reportingEnd.value in h.ends)
  }

  // A reconcile that leaves the start unknown does nothing; one that finds it does
  // what it would have done had it been recorded before.
  lemma FirstReconcile(spec: Spec, st: Status, turn: Turn)
    requires spec.schedule.Every? && spec.reportingStart.None? && st.last.None? && st.next.None?
    requires !IsFinishedCond(st)
    ensures var r, from := Reconcile(spec, st, turn), From(spec, st, turn.now);
      if r.status.last.None? && r.status.next.None? then r.generated.None? && !IsFinishedCond(r.status)
      else r == Reconcile(spec, st.(next := Some(from)), turn)
  {
    var from := From(spec, st, turn.now);
    var known := st.(next := Some(from));
    assert IsFinished(spec, st) == IsFinished(spec, known) == false;
    assert From(spec, known, turn.now) == from;
    SamePeriod(spec, st, turn.now);
    hide GetPeriod;
  }

  lemma SamePeriod(spec: Spec, st: Status, now: int)
    requires spec.schedule.Every? && spec.reportingStart.None? && st.last.None? && st.next.None?
    ensures var known := st.(next := Some(From(spec, st, now)));
      && GetPeriod(spec, st, now) == GetPeriod(spec, known, now)
      && (GetPeriod(spec, st, now).Found? ==> GetPeriod(spec, st, now).status == known)
  {
    TruncMsTwice(spec.schedule.next(now));
    hide TruncMs;
  }

  lemma TruncMsTwice(t: int)
    ensures TruncMs(TruncMs(t)) == TruncMs(t)
  {
  }

  // The start that it finds is the next activation after the clock.
  lemma FirstAnchor(h: History, next: int -> int, turn: Turn)
    requires Unanchored(h, next)
    ensures var g, s := Apply(h, Reconciles(turn)), From(h.spec, h.status, turn.now);
      && (g.status.last.Some? || g.status.next.Some? ==> Anchor(g) == Some(s))
      && (s > ZERO_TIME ==> WholeSeconds(s))
  {
    var s := From(h.spec, h.status, turn.now);
    SamePeriod(h.spec, h.status, turn.now);
    TruncMsOfWhole(next(turn.now));
    GeneratesIff(h.spec, h.status, turn);
    TruncMsTwice(next(turn.now));
    assert GetPeriod(h.spec, h.status, turn.now).Found? ==> GetPeriod(h.spec, h.status, turn.now).period.start == s;
    hide GetPeriod, TruncMs;
  }

  lemma AnchoredStart(h: History, next: int -> int, s: int)
    requires Unanchored(h, next) && WholeSeconds(s)
    ensures Anchored(h.(status := h.status.(next := Some(s))), next, s)
  {
    assert [s] + [] == [s];
  }

  lemma UnanchoredStep(h: History, next: int -> int, ev: Event)
    requires Unanchored(h, next) && Orderly(h, [ev]) && EndBehind(Apply(h, ev))
    ensures var g := Apply(h, ev); Unanchored(g, next) || (Anchor(g).Some? && Anchored(g, next, Anchor(g).value))
  {
    if ev.Reconciles? {
      var turn, s := ev.turn, From(h.spec, h.status, ev.turn.now);
      FirstReconcile(h.spec, h.status, turn);
      FirstAnchor(h, next, turn);
      hide Reconcile, GetPeriod, TruncMs, Inv;
      var r := Reconcile(h.spec, h.status, turn);
      if r.status.last.Some? || r.status.next.Some? {
        var known := h.(status := h.status.(next := Some(s)));
        AnchoredStart(h, next, s);
        TiledReconcile(known, next, s, turn);
        assert Apply(known, ev) == Apply(h, ev);
      }
    }
  }

  lemma AnchoredStep(h: History, next: int -> int, s: int, ev: Event)
    requires Anchored(h, next, s) && Orderly(h, [ev]) && EndBehind(h)
    ensures Anchored(Apply(h, ev), next, s)
  {
    hide Inv, Reconcile;
    match ev {
      case Reconciles(turn) => TiledReconcile(h, next, s, turn);
      case MovesEnd(end) => MoveKeepsInv(Tiled(h, s), next, s, end);
    }
  }

  lemma OrderlyHead(h: History, evs: seq<Event>)
    requires evs != [] && Orderly(h, evs)
    ensures Orderly(h, [evs[0]]) && Orderly(Apply(h, evs[0]), evs[1..])
  {
    assert [evs[0]][1..] == [];
  }

  lemma {:induction false} FindsAnchor(h: History, next: int -> int, evs: seq<Event>)
    requires Unanchored(h, next) || (Anchor(h).Some? && Anchored(h, next, Anchor(h).value))
    requires Orderly(h, evs) && EndStaysBehind(h, evs)
    ensures var t := Run(h, evs);
      Unanchored(t, next) || (Anchor(t).Some? && Anchored(t, next, Anchor(t).value))
    decreases |evs|
  {
    hide Unanchored, Anchored, Apply, EndBehind;
    if evs != [] {
      OrderlyHead(h, evs);
      assert EndBehind(Apply(h, evs[0]));
      if Unanchored(h, next) {
        UnanchoredStep(h, next, evs[0]);
      } else {
        AnchoredStep(h, next, Anchor(h).value, evs[0]);
        AnchoredAnchor(Apply(h, evs[0]), next, Anchor(h).value);
      }
      FindsAnchor(Apply(h, evs[0]), next, evs[1..]);
    }
  }

  lemma AnchoredAnchor(h: History, next: int -> int, s: int)
    requires Anchored(h, next, s)
    ensures Anchor(h) == Some(s)
  {
  }

  function StartUnstarted(spec: Spec): History {
    History(spec, Status(None, None, None, false), [], [], {},
            if spec.reportingEnd.Some? then {spec.reportingEnd.value} else {})
  }

  // Over every run of a report without reportingStart: either nothing has been
  // generated, or the periods tile from the time at which the first one starts,
  // if reportingEnd stays after that.
  lemma UnstartedPeriodsTile(spec: Spec, next: int -> int, evs: seq<Event>)
    requires spec.schedule == Every(next) && Ticks(next) && spec.reportingStart.None?
    requires spec.reportingEnd.Some? ==> WholeSeconds(spec.reportingEnd.value)
    requires Orderly(StartUnstarted(spec), evs) && EndStaysBehind(StartUnstarted(spec), evs)
    ensures var t := Run(StartUnstarted(spec), evs);
      if Anchor(t).None? then t.generated == [] && t.bounds == []
      else
        var s := Anchor(t).value;
        && Continuous(t.generated, s) && Stepwise(Tiled(t, s), next, s) && Earned(Tiled(t, s))
        && (t.spec.reportingEnd.Some? && t.status.last == t.spec.reportingEnd ==> IsFinishedCond(t.status))
  {
    hide Run, Orderly, EndStaysBehind;
    FindsAnchor(StartUnstarted(spec), next, evs);
  }
}
