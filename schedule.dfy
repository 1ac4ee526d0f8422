/**
 * One roster request end to end (app.py `solve_schedule`): the merged
 * limits, the model that is handed to the solver, and the result that is
 * returned for each solver outcome.
 */
module Schedule {
  import opened Wrappers
  import opened Calendar
  import opened Roster
  import opened Builders
  import opened CustomRules
  import opened Results

  /** The `basic_constraints` dict: a `None` field is a missing key. */
  datatype BasicConstraints = BasicConstraints(
    maxConsecutiveDays: Option<int>,
    maxDaysPerMonth: Option<int>,
    workersPerShift: Option<int>)

  /** The merged `constraints` dict the builders read. */
  datatype Settings = Settings(
    maxConsecutiveDays: int,
    maxDaysPerMonth: int,
    workersPerShift: int,
    customConstraints: seq<CustomRule>)

  /** A request without its member list, which is passed (and extended) separately. */
  datatype Request = Request(
    shifts: seq<Shift>,
    availability: seq<AvailabilityEntry>,
    basic: BasicConstraints,
    custom: seq<CustomRule>,
    month: int,
    year: int)

  function GetOr(o: Option<int>, default: int): (r: int)
    ensures o.Some? ==> r == o.value
    ensures o.None? ==> r == default
  {
    if o.Some? then o.value else default
  }

  /** The backward-compatible merge, with defaults 30, 20 and 2. */
  function Merge(b: BasicConstraints, custom: seq<CustomRule>): Settings {
    Settings(GetOr(b.maxConsecutiveDays, 30), GetOr(b.maxDaysPerMonth, 20), GetOr(b.workersPerShift, 2), custom)
  }

  /** Every given limit is kept, and every missing one takes its default. */
  lemma MergeKeepsGivenLimits(b: BasicConstraints, custom: seq<CustomRule>)
    ensures Merge(b, custom).maxConsecutiveDays == if b.maxConsecutiveDays.Some? then b.maxConsecutiveDays.value else 30
    ensures Merge(b, custom).maxDaysPerMonth == if b.maxDaysPerMonth.Some? then b.maxDaysPerMonth.value else 20
    ensures Merge(b, custom).workersPerShift == if b.workersPerShift.Some? then b.workersPerShift.value else 2
    ensures Merge(b, custom).customConstraints == custom
  {
  }

  /**
   * Merging is idempotent: a basic-constraints dict that already carries
   * the merged limits merges to the same settings.
   */
  lemma MergeIdempotent(b: BasicConstraints, custom: seq<CustomRule>)
    ensures var st := Merge(b, custom);
      Merge(BasicConstraints(Some(st.maxConsecutiveDays), Some(st.maxDaysPerMonth), Some(st.workersPerShift)), custom) == st
  {
  }

  /** The variable space once the placeholder is appended to the members. */
  function SpaceOf(members: seq<Member>, req: Request, days: nat): (sp: Space)
    requires req.month >= 0
    ensures |sp.members| == |members| + 1 && IsPlaceholder(sp.members[|members|])
    ensures sp.members[..|members|] == members
    ensures sp.shifts == req.shifts && sp.days == days
    ensures forall d: nat :: DateOf(sp, d) == DateString(req.year, req.month, d + 1)
  {
    Space(members + [Placeholder], req.shifts, days, (d: nat) => DateString(req.year, req.month, d + 1))
  }

  /**
   * Two days of the planned month carry the same date string iff they are
   * the same day, so each availability entry can match at most one day.
   */
  lemma SpaceDatesDistinct(members: seq<Member>, req: Request, days: nat, d1: nat, d2: nat)
    requires req.month >= 0 && d1 < days <= 31 && d2 < days
    ensures DateOf(SpaceOf(members, req, days), d1) == DateOf(SpaceOf(members, req, days), d2) <==> d1 == d2
  {
    DateStringDistinctDays(req.year, req.month, d1 + 1, d2 + 1);
  }

  /** Every hard constraint of the model, in the order the builders add them. */
  function ModelConstraints(sp: Space, av: seq<AvailabilityEntry>, st: Settings): seq<Constraint> {
    AvailabilityConstraints(sp, av)
    + CoverageConstraints(sp, st.workersPerShift)
    + MonthlyCapConstraints(sp, st.maxDaysPerMonth)
    + RunLimitConstraints(sp, st.maxConsecutiveDays)
    + CustomConstraints(sp, st.customConstraints, |st.customConstraints|)
  }

  predicate Solved(st: SolverStatus) {
    st == Optimal || st == Feasible
  }

  /** The result for a solved month: the extracted roster, or the fallback when it is empty. */
  function SolvedResult(sp: Space, outcome: SolverOutcome): ScheduleResult {
    var ex := Extracted(sp, outcome.valuation);
    if ex == [] then FallbackResult(sp) else Roster(ex, ReportedStatus(outcome.status), outcome.wallTime)
  }

  /** The dict `solve_schedule` returns for these members, this request and this solver outcome. */
  function ResultFor(members: seq<Member>, req: Request, outcome: SolverOutcome): ScheduleResult {
    match DaysInMonth(req.year, req.month)
    case Failure(e) => Error("Solver error: " + e)
    case Success(days) =>
      if Solved(outcome.status) then SolvedResult(SpaceOf(members, req, days), outcome)
      else Error("No feasible solution found. Solver status: " + StatusName(outcome.status))
  }

  /** A December request is always answered with the `datetime` error, whatever the solver would do. */
  lemma DecemberIsError(members: seq<Member>, req: Request, outcome: SolverOutcome)
    requires req.month == 12 && 1 <= req.year <= 9999
    ensures ResultFor(members, req, outcome) == Error("Solver error: " + MonthRangeError)
  {
    DecemberFails(req.year);
    assert DaysInMonth(req.year, req.month).Failure?;
  }

  /** A result is a roster only for a month `datetime` accepts and a solver that found a solution. */
  lemma RosterOnlyWhenSolved(members: seq<Member>, req: Request, outcome: SolverOutcome)
    ensures ResultFor(members, req, outcome).Roster? <==>
      1 <= req.year <= 9999 && 1 <= req.month <= 11 && Solved(outcome.status)
  {
  }

  /** An unsolved model yields the error naming the solver status. */
  lemma UnsolvedIsError(members: seq<Member>, req: Request, outcome: SolverOutcome)
    requires 1 <= req.year <= 9999 && 1 <= req.month <= 11 && !Solved(outcome.status)
    ensures ResultFor(members, req, outcome) == Error("No feasible solution found. Solver status: " + StatusName(outcome.status))
  {
  }

  /**
   * For a solved month the fallback is used exactly when no real member's
   * variable is 1, and only then is the reported status `FALLBACK`.
   */
  lemma FallbackExactlyWhenNobodyWorks(members: seq<Member>, req: Request, outcome: SolverOutcome)
    requires 1 <= req.year <= 9999 && 1 <= req.month <= 11 && Solved(outcome.status)
    ensures var sp := SpaceOf(members, req, MonthLength(req.year, req.month));
      var r := ResultFor(members, req, outcome);
      r.Roster? && (r.solverStatus == "FALLBACK"
        <==> forall m: nat, s: nat, d: nat :: !Reported(sp, outcome.valuation, m, s, d))
  {
    var sp := SpaceOf(members, req, MonthLength(req.year, req.month));
    ExtractedEmpty(sp, outcome.valuation);
  }

  /**
   * A solved roster built from a valuation that meets the model never lists
   * a member for a slot whose first availability entry says `unavailable`;
   * every record is a real member's variable that is 1.
   */
  lemma SolvedRosterRespectsAvailability(members: seq<Member>, req: Request, outcome: SolverOutcome, a: Assignment)
    requires 1 <= req.year <= 9999 && 1 <= req.month <= 11 && Solved(outcome.status)
    requires var sp := SpaceOf(members, req, MonthLength(req.year, req.month));
      Satisfies(outcome.valuation, ModelConstraints(sp, req.availability, Merge(req.basic, req.custom)))
    requires Extracted(SpaceOf(members, req, MonthLength(req.year, req.month)), outcome.valuation) != []
    requires ResultFor(members, req, outcome).Roster? && a in ResultFor(members, req, outcome).assignments
    ensures var sp := SpaceOf(members, req, MonthLength(req.year, req.month));
      exists m: nat, s: nat, d: nat :: Reported(sp, outcome.valuation, m, s, d) && a == AssignmentOf(sp, m, s, d)
        && !MarkedUnavailable(sp, req.availability, m, s, d)
  {
    var sp := SpaceOf(members, req, MonthLength(req.year, req.month));
    assert ResultFor(members, req, outcome) == SolvedResult(sp, outcome);
    ModelRespectsAvailability(sp, req.availability, Merge(req.basic, req.custom), outcome.valuation, a);
  }

  /** A record extracted from a valuation that meets the model is a 1 the availability rules allow. */
  lemma ModelRespectsAvailability(sp: Space, av: seq<AvailabilityEntry>, st: Settings, v: Valuation, a: Assignment)
    requires Satisfies(v, ModelConstraints(sp, av, st)) && a in Extracted(sp, v)
    ensures exists m: nat, s: nat, d: nat ::
      Reported(sp, v, m, s, d) && a == AssignmentOf(sp, m, s, d) && !MarkedUnavailable(sp, av, m, s, d)
  {
    var cs := AvailabilityConstraints(sp, av);
    var rest := CoverageConstraints(sp, st.workersPerShift)
      + MonthlyCapConstraints(sp, st.maxDaysPerMonth)
      + RunLimitConstraints(sp, st.maxConsecutiveDays)
      + CustomConstraints(sp, st.customConstraints, |st.customConstraints|);
    assert ModelConstraints(sp, av, st) == cs + rest;
    SatisfiesConcat(v, cs, rest);
    AvailabilitySemantics(sp, av, v);
    ExtractedExactly(sp, v, a);
    var m: nat, s: nat, d: nat :| Reported(sp, v, m, s, d) && a == AssignmentOf(sp, m, s, d);
    assert !MarkedUnavailable(sp, av, m, s, d);
  }

  /**
   * A valuation meets the model iff it meets each builder's constraints: the
   * availability zeros, the per-slot upper bound, the monthly cap, the run
   * windows and every custom rule.
   */
  lemma ModelSemantics(sp: Space, av: seq<AvailabilityEntry>, st: Settings, v: Valuation)
    ensures Satisfies(v, ModelConstraints(sp, av, st)) <==>
      Satisfies(v, AvailabilityConstraints(sp, av))
      && (forall s: nat, d: nat :: s < |sp.shifts| && d < sp.days ==> Count(v, Column(|sp.members|, s, d)) <= st.workersPerShift)
      && (forall i :: 0 <= i < |sp.members| ==> Count(v, MonthTerms(i, |sp.shifts|, sp.days)) <= st.maxDaysPerMonth)
      && Satisfies(v, RunLimitConstraints(sp, st.maxConsecutiveDays))
      && (forall j :: 0 <= j < |st.customConstraints| ==> Satisfies(v, RuleConstraints(sp, st.customConstraints[j])))
  {
    var a := AvailabilityConstraints(sp, av);
    var b := CoverageConstraints(sp, st.workersPerShift);
    var c := MonthlyCapConstraints(sp, st.maxDaysPerMonth);
    var d := RunLimitConstraints(sp, st.maxConsecutiveDays);
    var e := CustomConstraints(sp, st.customConstraints, |st.customConstraints|);
    SatisfiesConcat(v, a + b + c + d, e);
    SatisfiesConcat(v, a + b + c, d);
    SatisfiesConcat(v, a + b, c);
    SatisfiesConcat(v, a, b);
    CoverageSemantics(sp, st.workersPerShift, v);
    MonthlyCapSemantics(sp, st.maxDaysPerMonth, v);
    CustomConstraintsSemantics(sp, st.customConstraints, |st.customConstraints|, v);
  }
}
