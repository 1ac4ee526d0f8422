/**
 * The `ScheduleSolver` object: its builder methods append constraints to
 * the model one at a time, as the nested loops of app.py do, and each is
 * proved to append exactly the list the matching function of `Builders`,
 * `CustomRules` or `Results` describes.
 */
module Solver {
  import opened Wrappers
  import opened Text
  import opened Calendar
  import opened Roster
  import opened Builders
  import opened CustomRules
  import opened Objective
  import opened Results
  import opened Schedule

  /** The caller's `members` list, which `solve_schedule` extends in place. */
  class MemberList {
    var items: seq<Member>

    constructor (items0: seq<Member>)
      ensures items == items0
    {
      items := items0;
    }
  }

  class ScheduleSolver {
    /** The constraints added to the current CP model so far. */
    var constraints: seq<Constraint>

    constructor ()
      ensures constraints == []
    {
      constraints := [];
    }

    /** app.py `_add_availability_constraints`. */
    method AddAvailabilityConstraints(sp: Space, av: seq<AvailabilityEntry>) returns (added: nat)
      modifies this
      ensures constraints == old(constraints) + AvailabilityConstraints(sp, av)
      ensures added == |AvailabilityConstraints(sp, av)|
    {
      added := 0;
      for m := 0 to |sp.members|
        invariant constraints == old(constraints) + AvailabilityRows(sp, av, m)
        invariant |constraints| == |old(constraints)| + added
      {
        var n := AddAvailabilityShifts(sp, av, m);
        ConcatAssoc(old(constraints), AvailabilityRows(sp, av, m), AvailabilityShifts(sp, av, m, |sp.shifts|));
        added := added + n;
      }
    }

    /** The shift loop of `_add_availability_constraints` for one member. */
    method AddAvailabilityShifts(sp: Space, av: seq<AvailabilityEntry>, m: nat) returns (added: nat)
      requires m < |sp.members|
      modifies this
      ensures constraints == old(constraints) + AvailabilityShifts(sp, av, m, |sp.shifts|)
      ensures added == |AvailabilityShifts(sp, av, m, |sp.shifts|)|
    {
      added := 0;
      for s := 0 to |sp.shifts|
        invariant constraints == old(constraints) + AvailabilityShifts(sp, av, m, s)
        invariant |constraints| == |old(constraints)| + added
      {
        var n := AddAvailabilityDays(sp, av, m, s);
        ConcatAssoc(old(constraints), AvailabilityShifts(sp, av, m, s), AvailabilityDays(sp, av, m, s, sp.days));
        added := added + n;
      }
    }

    /** The innermost loop of `_add_availability_constraints`: the days of one member and shift. */
    method AddAvailabilityDays(sp: Space, av: seq<AvailabilityEntry>, m: nat, s: nat) returns (added: nat)
      requires m < |sp.members| && s < |sp.shifts|
      modifies this
      ensures constraints == old(constraints) + AvailabilityDays(sp, av, m, s, sp.days)
      ensures added == |AvailabilityDays(sp, av, m, s, sp.days)|
    {
      added := 0;
      for d := 0 to sp.days
        invariant constraints == old(constraints) + AvailabilityDays(sp, av, m, s, d)
        invariant |constraints| == |old(constraints)| + added
      {
        var entry := FirstMatch(av, sp.members[m].id, sp.shifts[s].id, DateOf(sp, d));
        if !IsPlaceholder(sp.members[m]) && entry.Some? && entry.value.status == "unavailable" {
          constraints := constraints + [Zero(Var(m, s, d))];
          added := added + 1;
        }
        ConcatAssoc(old(constraints), AvailabilityDays(sp, av, m, s, d), AvailabilityCell(sp, av, m, s, d));
      }
    }

    /** app.py `_add_workers_per_shift_constraint`, with the limit the merged settings carry. */
    method AddWorkersPerShiftConstraint(sp: Space, workersPerShift: int) returns (added: nat)
      modifies this
      ensures constraints == old(constraints) + CoverageConstraints(sp, workersPerShift)
      ensures added == |sp.shifts| * sp.days
    {
      var nm, ss := |sp.members|, Range(|sp.shifts|);
      added := 0;
      for s := 0 to |sp.shifts|
        invariant constraints == old(constraints) + ColumnShifts(false, nm, ss, sp.days, workersPerShift, s)
        invariant |constraints| == |old(constraints)| + added
      {
        for d := 0 to sp.days
          invariant constraints == old(constraints) + ColumnShifts(false, nm, ss, sp.days, workersPerShift, s)
            + ColumnDays(false, nm, s, workersPerShift, d)
          invariant |constraints| == |old(constraints)| + added
        {
          ghost var pre := old(constraints) + ColumnShifts(false, nm, ss, sp.days, workersPerShift, s);
          constraints := constraints + [AtMost(Column(nm, s, d), workersPerShift)];
          added := added + 1;
          ConcatAssoc(pre, ColumnDays(false, nm, s, workersPerShift, d), [AtMost(Column(nm, s, d), workersPerShift)]);
        }
        ConcatAssoc(old(constraints), ColumnShifts(false, nm, ss, sp.days, workersPerShift, s), ColumnDays(false, nm, s, workersPerShift, sp.days));
      }
      ColumnShiftsLength(false, nm, ss, sp.days, workersPerShift, |sp.shifts|);
    }

    /** app.py `_add_max_shifts_per_month_constraint`. */
    method AddMaxShiftsPerMonthConstraint(sp: Space, maxShifts: int) returns (added: nat)
      modifies this
      ensures constraints == old(constraints) + MonthlyCapConstraints(sp, maxShifts)
      ensures added == |sp.members|
    {
      added := 0;
      for m := 0 to |sp.members|
        invariant constraints == old(constraints) + CapRows(|sp.shifts|, sp.days, maxShifts, m)
        invariant added == m
      {
        constraints := constraints + [AtMost(MonthTerms(m, |sp.shifts|, sp.days), maxShifts)];
        added := added + 1;
      }
    }

    /** app.py `_add_max_consecutive_shifts_constraint`. */
    method AddMaxConsecutiveShiftsConstraint(sp: Space, maxConsecutive: int) returns (added: nat)
      modifies this
      ensures constraints == old(constraints) + RunLimitConstraints(sp, maxConsecutive)
      ensures added == |sp.members| * WindowCount(sp.days, maxConsecutive)
    {
      var ss := Range(|sp.shifts|);
      added := 0;
      for m := 0 to |sp.members|
        invariant constraints == old(constraints) + RunRows(ss, sp.days, maxConsecutive, m)
        invariant |constraints| == |old(constraints)| + added
      {
        for d := 0 to WindowCount(sp.days, maxConsecutive)
          invariant constraints == old(constraints) + RunRows(ss, sp.days, maxConsecutive, m) + RunDays(m, ss, maxConsecutive, d)
          invariant |constraints| == |old(constraints)| + added
        {
          ghost var pre := old(constraints) + RunRows(ss, sp.days, maxConsecutive, m);
          constraints := constraints + [AtMost(Block(m, ss, d, WindowLen(maxConsecutive)), maxConsecutive)];
          added := added + 1;
          ConcatAssoc(pre, RunDays(m, ss, maxConsecutive, d), [AtMost(Block(m, ss, d, WindowLen(maxConsecutive)), maxConsecutive)]);
        }
        ConcatAssoc(old(constraints), RunRows(ss, sp.days, maxConsecutive, m), RunDays(m, ss, maxConsecutive, WindowCount(sp.days, maxConsecutive)));
      }
      RunLimitCount(sp, maxConsecutive);
    }

    /** app.py `_add_ai_consecutive_shift_restriction`. */
    method AddAiConsecutiveShiftRestriction(sp: Space, p: Params) returns (added: nat)
      modifies this
      ensures constraints == old(constraints) + ConsecutiveRule(sp, p)
      ensures added == |ConsecutiveRule(sp, p)|
    {
      added := 0;
      var targets: seq<nat> := [];
      for i := 0 to |sp.shifts|
        invariant targets == TargetShifts(p, sp.shifts, i)
      {
        var sh := sp.shifts[i];
        var isTarget := false;
        if sh.id in p.appliesToShifts {
          isTarget := true;
        } else if sh.name in p.names {
          isTarget := true;
        } else if p.appliesToShifts == [] && p.names == [] {
          isTarget := KeywordMatch(p.keywords, sh.name);
        }
        if isTarget {
          targets := targets + [i];
        }
      }
      if targets == [] {
        return;
      }
      var k := p.maxConsecutive;
      for m := 0 to |sp.members|
        invariant constraints == old(constraints) + RunRows(targets, sp.days, k, m)
        invariant |constraints| == |old(constraints)| + added
      {
        for d := 0 to WindowCount(sp.days, k)
          invariant constraints == old(constraints) + RunRows(targets, sp.days, k, m) + RunDays(m, targets, k, d)
          invariant |constraints| == |old(constraints)| + added
        {
          ghost var pre := old(constraints) + RunRows(targets, sp.days, k, m);
          constraints := constraints + [AtMost(Block(m, targets, d, WindowLen(k)), k)];
          added := added + 1;
          ConcatAssoc(pre, RunDays(m, targets, k, d), [AtMost(Block(m, targets, d, WindowLen(k)), k)]);
        }
        ConcatAssoc(old(constraints), RunRows(targets, sp.days, k, m), RunDays(m, targets, k, WindowCount(sp.days, k)));
      }
    }

    /**
     * The index scan of `_add_shift_transition_restriction`: every shift
     * whose id matches overwrites the index found so far.
     */
    method ResolveTransition(shifts: seq<Shift>, tr: Transition) returns (from: Option<nat>, to: Option<nat>)
      ensures from == LastIndexOf(shifts, tr.fromShiftId, |shifts|)
      ensures to == LastIndexOf(shifts, tr.toShiftId, |shifts|)
    {
      from, to := None, None;
      for i := 0 to |shifts|
        invariant from == LastIndexOf(shifts, tr.fromShiftId, i)
        invariant to == LastIndexOf(shifts, tr.toShiftId, i)
      {
        if shifts[i].id == tr.fromShiftId {
          from := Some(i);
        }
        if shifts[i].id == tr.toShiftId {
          to := Some(i);
        }
      }
    }

    /** The loops of `_add_shift_transition_restriction` for one resolved pair `f -> t`. */
    method AddTransitionRows(sp: Space, f: nat, t: nat) returns (added: nat)
      modifies this
      ensures constraints == old(constraints) + TransitionRows(f, t, sp.days, |sp.members|)
      ensures |constraints| == |old(constraints)| + added
    {
      added := 0;
      for m := 0 to |sp.members|
        invariant constraints == old(constraints) + TransitionRows(f, t, sp.days, m)
        invariant |constraints| == |old(constraints)| + added
      {
        for d := 0 to WindowCount(sp.days, 1)
          invariant constraints == old(constraints) + TransitionRows(f, t, sp.days, m) + TransitionDays(m, f, t, d)
          invariant |constraints| == |old(constraints)| + added
        {
          ghost var pre := old(constraints) + TransitionRows(f, t, sp.days, m);
          constraints := constraints + [AtMost([Var(m, f, d), Var(m, t, d + 1)], 1)];
          added := added + 1;
          ConcatAssoc(pre, TransitionDays(m, f, t, d), [AtMost([Var(m, f, d), Var(m, t, d + 1)], 1)]);
        }
        ConcatAssoc(old(constraints), TransitionRows(f, t, sp.days, m), TransitionDays(m, f, t, WindowCount(sp.days, 1)));
      }
    }

    /** app.py `_add_shift_transition_restriction`. */
    method AddShiftTransitionRestriction(sp: Space, p: Params) returns (added: nat)
      modifies this
      ensures constraints == old(constraints) + TransitionRules(sp, p.forbiddenTransitions, |p.forbiddenTransitions|)
      ensures added == |TransitionRules(sp, p.forbiddenTransitions, |p.forbiddenTransitions|)|
    {
      var trs := p.forbiddenTransitions;
      added := 0;
      if trs == [] {
        return;
      }
      for k := 0 to |trs|
        invariant constraints == old(constraints) + TransitionRules(sp, trs, k)
        invariant |constraints| == |old(constraints)| + added
      {
        ghost var before := constraints;
        var from, to := ResolveTransition(sp.shifts, trs[k]);
        if from.Some? && to.Some? {
          var n := AddTransitionRows(sp, from.value, to.value);
          added := added + n;
        }
        TransitionRulesStep(sp, trs, k, old(constraints), before, constraints);
      }
    }

    /** app.py `_add_ai_workers_per_shift_constraint`. */
    method AddAiWorkersPerShiftConstraint(sp: Space, p: Params) returns (added: nat)
      modifies this
      ensures constraints == old(constraints) + WorkersRule(sp, p)
      ensures added == |WorkersRule(sp, p)|
    {
      added := 0;
      var targets: seq<nat> := [];
      for i := 0 to |sp.shifts|
        invariant targets == NamedShifts(p.shiftNames, sp.shifts, i)
      {
        if sp.shifts[i].name in p.shiftNames {
          targets := targets + [i];
        }
      }
      if targets == [] {
        return;
      }
      var nm, k := |sp.members|, p.workersRequired;
      for j := 0 to |targets|
        invariant constraints == old(constraints) + ColumnShifts(true, nm, targets, sp.days, k, j)
        invariant |constraints| == |old(constraints)| + added
      {
        for d := 0 to sp.days
          invariant constraints == old(constraints) + ColumnShifts(true, nm, targets, sp.days, k, j)
            + ColumnDays(true, nm, targets[j], k, d)
          invariant |constraints| == |old(constraints)| + added
        {
          ghost var pre := old(constraints) + ColumnShifts(true, nm, targets, sp.days, k, j);
          constraints := constraints + [Exactly(Column(nm, targets[j], d), k)];
          added := added + 1;
          ConcatAssoc(pre, ColumnDays(true, nm, targets[j], k, d), [Exactly(Column(nm, targets[j], d), k)]);
        }
        ConcatAssoc(old(constraints), ColumnShifts(true, nm, targets, sp.days, k, j), ColumnDays(true, nm, targets[j], k, sp.days));
      }
    }

    /**
     * The body of the loop of app.py `_process_custom_constraints` for one
     * rule: the type and parameters are looked up, an untranslated rule is
     * skipped, and the rest are routed by type (preference, rotation,
     * workload and unknown types add nothing).
     */
    method AddCustomRule(sp: Space, rule: CustomRule) returns (added: nat)
      modifies this
      ensures constraints == old(constraints) + RuleConstraints(sp, rule)
      ensures added == |RuleConstraints(sp, rule)|
    {
      var constraintType := rule.constraintType;
      var parameters: Params;
      if rule.aiTranslation.Some? {
        parameters := rule.aiTranslation.value.parameters;
        if constraintType == "" {
          constraintType := rule.aiTranslation.value.constraintType;
        }
      } else {
        parameters := rule.parameters;
      }
      assert constraintType == RuleType(rule) && parameters == RuleParams(rule);
      added := 0;
      if rule.status == "translated" {
        if constraintType == "consecutive_shift_restriction" {
          added := AddAiConsecutiveShiftRestriction(sp, parameters);
        } else if constraintType == "workers_per_shift" {
          added := AddAiWorkersPerShiftConstraint(sp, parameters);
        } else if constraintType == "shift_transition_restriction" {
          added := AddShiftTransitionRestriction(sp, parameters);
        }
      }
    }

    /** app.py `_process_custom_constraints`. */
    method ProcessCustomConstraints(sp: Space, rules: seq<CustomRule>) returns (added: nat)
      modifies this
      ensures constraints == old(constraints) + CustomConstraints(sp, rules, |rules|)
      ensures added == |CustomConstraints(sp, rules, |rules|)|
    {
      added := 0;
      for i := 0 to |rules|
        invariant constraints == old(constraints) + CustomConstraints(sp, rules, i)
        invariant |constraints| == |old(constraints)| + added
      {
        ghost var before := constraints;
        var n := AddCustomRule(sp, rules[i]);
        CustomConstraintsStep(sp, rules, i, old(constraints), before, constraints);
        added := added + n;
      }
    }

    /** app.py `_add_custom_constraints`: an empty rule list is skipped. */
    method AddCustomConstraints(sp: Space, rules: seq<CustomRule>) returns (added: nat)
      modifies this
      ensures constraints == old(constraints) + CustomConstraints(sp, rules, |rules|)
      ensures added == |CustomConstraints(sp, rules, |rules|)|
    {
      added := 0;
      if rules != [] {
        added := ProcessCustomConstraints(sp, rules);
      }
    }
    /** app.py `_calculate_workload_variance`, over the totals that `v` gives each real member. */
    method CalculateWorkloadVariance(sp: Space, v: Valuation) returns (penalty: nat)
      ensures penalty == WorkloadTerm(sp, v)
    {
      if |sp.members| <= 1 {
        return 0;
      }
      var totals := MemberTotals(sp, v);
      if |totals| <= 1 {
        return 0;
      }
      penalty := PairwisePenalty(totals);
    }

    /** The `member_totals` loop of `_calculate_workload_variance`. */
    method MemberTotals(sp: Space, v: Valuation) returns (totals: seq<int>)
      requires |sp.members| > 1
      ensures totals == RealTotals(sp, v)
    {
      totals := [];
      for m := 0 to |sp.members| - 1
        invariant totals == RealTotals(sp, v)[..m]
      {
        totals := totals + [MemberTotal(v, m, |sp.shifts|, sp.days)];
      }
    }

    /** The pair loops of `_calculate_workload_variance`. */
    method PairwisePenalty(totals: seq<int>) returns (penalty: nat)
      requires |totals| > 1
      ensures penalty == WorkloadPenalty(totals)
    {
      penalty := 0;
      for i := 0 to |totals|
        invariant penalty == PenaltyRows(totals, i)
      {
        for j := i + 1 to |totals|
          invariant penalty == PenaltyRows(totals, i) + RowPenalty(totals, i, j)
        {
          var diff := Abs(totals[i] - totals[j]);
          if diff > 1 {
            var excess := diff - 1;
            MulAtLeast(excess);
            penalty := penalty + excess * excess * 100;
          } else {
            penalty := penalty + diff * 2;
          }
        }
      }
    }

    /**
     * app.py `_calculate_shift_type_variance`: the shifts are grouped by
     * type in a dict that keeps its keys in insertion order, and then every
     * real member's assignments are summed group by group.
     */
    method CalculateShiftTypeVariance(sp: Space, v: Valuation) returns (total: nat)
      ensures total == ShiftTypeTerm(sp, v)
    {
      if |sp.members| <= 1 || |sp.shifts| <= 1 {
        return 0;
      }
      var order, groups := GroupShifts(sp.shifts);
      ShiftTypeTermByGroups(sp, v, Groups(order, groups));
      total := SumGroups(v, |sp.members| - 1, order, groups, sp.days);
    }

    /** The `for shift_type, shift_indices in shift_types.items()` loop, in key order. */
    method SumGroups(v: Valuation, n: nat, order: seq<string>, groups: map<string, seq<nat>>, nd: nat) returns (total: nat)
      requires forall t :: t in order ==> t in groups
      ensures total == TypesTotal(v, n, order, groups, nd)
    {
      total := 0;
      for k := 0 to |order|
        invariant total == TypesTotal(v, n, order[..k], groups, nd)
      {
        var typeTotal := GroupSum(v, n, groups[order[k]], nd);
        assert order[..k + 1][..k] == order[..k];
        total := total + typeTotal;
      }
      assert order[..|order|] == order;
    }

    /** The grouping loop of `_calculate_shift_type_variance`. */
    method GroupShifts(shifts: seq<Shift>) returns (order: seq<string>, groups: map<string, seq<nat>>)
      ensures Groups(order, groups) == GroupsOf(ShiftTypes(shifts), |shifts|)
      ensures forall t :: t in order ==> t in groups
    {
      ghost var types := ShiftTypes(shifts);
      order, groups := [], map[];
      for s := 0 to |shifts|
        invariant Groups(order, groups) == GroupsOf(types, s)
      {
        var shiftType := ShiftType(shifts[s].name);
        assert shiftType == types[s];
        ghost var g := Groups(order, groups);
        if shiftType !in groups {
          order := order + [shiftType];
          groups := groups[shiftType := []];
        }
        groups := groups[shiftType := groups[shiftType] + [s]];
        InsertThenAppend(g, shiftType, s, order, groups);
        assert GroupsOf(types, s + 1) == AddToGroup(GroupsOf(types, s), types[s], s);
      }
      GroupsWellFormed(types, |types|);
    }

    /** The inner loops of `_calculate_shift_type_variance` for one group of shifts `ss`. */
    method GroupSum(v: Valuation, n: nat, ss: seq<nat>, nd: nat) returns (sum: nat)
      ensures sum == GroupTotal(v, n, ss, nd)
    {
      sum := 0;
      for m := 0 to n
        invariant sum == GroupTotal(v, m, ss, nd)
      {
        for j := 0 to |ss|
          invariant sum == GroupTotal(v, m, ss, nd) + Count(v, Block(m, ss[..j], 0, nd))
        {
          for d := 0 to nd
            invariant sum == GroupTotal(v, m, ss, nd) + Count(v, Block(m, ss[..j], 0, nd)) + Count(v, DaySpan(m, ss[j], 0, d))
          {
            DaySpanSnoc(m, ss[j], 0, d);
            CountConcat(v, DaySpan(m, ss[j], 0, d), [Var(m, ss[j], d)]);
            if v(Var(m, ss[j], d)) {
              sum := sum + 1;
            }
          }
          BlockSnoc(m, ss, j, 0, nd);
          CountConcat(v, Block(m, ss[..j], 0, nd), DaySpan(m, ss[j], 0, nd));
        }
        assert ss[..|ss|] == ss;
      }
    }

    /** app.py `_extract_solution`. */
    method ExtractSolution(sp: Space, outcome: SolverOutcome) returns (r: ScheduleResult)
      ensures r == Roster(Extracted(sp, outcome.valuation), ReportedStatus(outcome.status), outcome.wallTime)
    {
      var v := outcome.valuation;
      var assignments: seq<Assignment> := [];
      for m := 0 to |sp.members|
        invariant assignments == ExtractRows(sp, v, m)
      {
        for s := 0 to |sp.shifts|
          invariant assignments == ExtractRows(sp, v, m) + ExtractShifts(sp, v, m, s)
        {
          for d := 0 to sp.days
            invariant assignments == ExtractRows(sp, v, m) + ExtractShifts(sp, v, m, s) + ExtractDays(sp, v, m, s, d)
          {
            ghost var pre := ExtractRows(sp, v, m) + ExtractShifts(sp, v, m, s);
            if v(Var(m, s, d)) {
              var date := DateOf(sp, d);
              if sp.members[m].id != PlaceholderId {
                assignments := assignments + [Assignment(sp.members[m].id, sp.shifts[s].id, date)];
              }
            }
            ConcatAssoc(pre, ExtractDays(sp, v, m, s, d), ExtractCell(sp, v, m, s, d));
          }
          ConcatAssoc(ExtractRows(sp, v, m), ExtractShifts(sp, v, m, s), ExtractDays(sp, v, m, s, sp.days));
        }
      }
      var status := if StatusName(outcome.status) == "OPTIMAL" then "OPTIMAL" else "FEASIBLE";
      r := Roster(assignments, status, outcome.wallTime);
    }

    /** app.py `_solve_with_fallback`: a round-robin over the real members for the first week. */
    method SolveWithFallback(sp: Space) returns (r: ScheduleResult)
      ensures r == FallbackResult(sp)
    {
      var assignments: seq<Assignment> := [];
      var memberIndex: nat := 0;
      var ns, nr := |sp.shifts|, RealCount(sp);
      var days := if 7 < sp.days then 7 else sp.days;
      for d := 0 to days
        invariant nr > 0 && ns > 0 ==> |assignments| == d * ns && memberIndex == |assignments| % nr
        invariant nr > 0 && ns > 0 ==> forall i :: 0 <= i < |assignments| ==> assignments[i] == FallbackAt(sp, i)
        invariant nr == 0 || ns == 0 ==> assignments == [] && memberIndex == 0
      {
        for s := 0 to ns
          invariant nr > 0 && ns > 0 ==> |assignments| == d * ns + s && memberIndex == |assignments| % nr
          invariant nr > 0 && ns > 0 ==> forall i :: 0 <= i < |assignments| ==> assignments[i] == FallbackAt(sp, i)
          invariant nr == 0 || ns == 0 ==> assignments == [] && memberIndex == 0
        {
          if memberIndex < |sp.members| - 1 {
            ghost var k := |assignments|;
            DivModPair(d, s, ns);
            ModSucc(k, nr);
            assignments := assignments + [Assignment(sp.members[memberIndex].id, sp.shifts[s].id, DateOf(sp, d))];
            memberIndex := (memberIndex + 1) % (|sp.members| - 1);
          }
        }
        assert d * ns + ns == (d + 1) * ns;
      }
      assert days == FallbackDays(sp);
      r := Roster(assignments, "FALLBACK", 0.0);
    }
    /**
     * app.py `solve_schedule` for a solver that answers `outcome`: the
     * limits are merged, the day count is computed (December and years
     * outside 1..9999 fail here, before anything changes), the placeholder
     * is appended to the caller's member list, a fresh model is built, and
     * the solver's answer is turned into a roster, the fallback or an error.
     */
    method SolveSchedule(team: MemberList, req: Request, outcome: SolverOutcome) returns (r: ScheduleResult)
      modifies this, team
      ensures r == ResultFor(old(team.items), req, outcome)
      ensures DaysInMonth(req.year, req.month).Failure? ==>
        team.items == old(team.items) && constraints == old(constraints)
      ensures DaysInMonth(req.year, req.month).Success? ==>
        team.items == old(team.items) + [Placeholder]
        && constraints == ModelConstraints(SpaceOf(old(team.items), req, DaysInMonth(req.year, req.month).value),
                                           req.availability, Merge(req.basic, req.custom))
    {
      var settings := Merge(req.basic, req.custom);
      var daysInMonth := DaysInMonth(req.year, req.month);
      if daysInMonth.Failure? {
        return Error("Solver error: " + daysInMonth.error);
      }
      var days := daysInMonth.value;
      var sp := SpaceOf(team.items, req, days);
      team.items := team.items + [Placeholder];
      BuildModel(sp, req.availability, settings);
      r := Answer(sp, outcome);
    }

    /** The fresh model `solve_schedule` builds: the five builders, in order. */
    method BuildModel(sp: Space, av: seq<AvailabilityEntry>, settings: Settings)
      modifies this
      ensures constraints == ModelConstraints(sp, av, settings)
    {
      constraints := [];
      var n := AddAvailabilityConstraints(sp, av);
      assert constraints == AvailabilityConstraints(sp, av);
      n := AddWorkersPerShiftConstraint(sp, settings.workersPerShift);
      n := AddMaxShiftsPerMonthConstraint(sp, settings.maxDaysPerMonth);
      n := AddMaxConsecutiveShiftsConstraint(sp, settings.maxConsecutiveDays);
      n := AddCustomConstraints(sp, settings.customConstraints);
    }

    /** The tail of `solve_schedule`: the roster, the fallback when it is empty, or the status error. */
    method Answer(sp: Space, outcome: SolverOutcome) returns (r: ScheduleResult)
      ensures Solved(outcome.status) ==> r == SolvedResult(sp, outcome)
      ensures !Solved(outcome.status) ==> r == Error("No feasible solution found. Solver status: " + StatusName(outcome.status))
    {
      if outcome.status == Optimal || outcome.status == Feasible {
        r := ExtractSolution(sp, outcome);
        if |r.assignments| == 0 {
          r := SolveWithFallback(sp);
        }
      } else {
        r := Error("No feasible solution found. Solver status: " + StatusName(outcome.status));
      }
    }
  }

  /** The cycling `member_index`: one step past `k mod n` is `(k + 1) mod n`. */
  lemma ModSucc(k: nat, n: nat)
    requires n > 0
    ensures (k % n + 1) % n == (k + 1) % n
  {
    var q, r := k / n, k % n;
    assert k == q * n + r;
    if r + 1 < n {
      DivModPair(q, r + 1, n);
      DivModPair(0, r + 1, n);
    } else {
      DivModPair(q + 1, 0, n);
      DivModPair(1, 0, n);
      assert k + 1 == (q + 1) * n + 0;
    }
  }
}
