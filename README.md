# Shift roster solver: a Dafny model of its constraint builder

This project models the roster core of an OR-Tools shift scheduler. The
`ScheduleSolver` of `app.py` turns a month's request into a CP-SAT model.
The request holds members, shifts, availability entries, basic limits and
custom team rules. The model has one boolean variable `x[m, s, d]` per
member, shift and day, with an `unassigned` placeholder member appended.
The solver's answer then becomes a list of assignments, a round-robin
fallback, or an error. The project also models the deterministic parts of
`constraint_parser.py`:

- stripping the code fence off the language model's reply;
- normalising the four rule sections;
- the default rule set;
- merging database limits into the shift rules.

How it is modelled:

- **Constraints are data.** A constraint is `AtMost(terms, k)`,
  `Exactly(terms, k)` or `Zero(x)` over variables `Var(m, s, d)`
  (`Roster`). `Satisfies(v, cs)` says a valuation `v` meets a list.
- **Builders as methods.** Each builder of `app.py` is a method of
  `Solver.ScheduleSolver`. It appends to the `constraints` field in the
  same nested-loop order as the source. Its contract says it adds exactly
  the list a specification function in `Builders` or `CustomRules`
  defines.
- **Lemmas over the functions.** Lemmas state what those lists contain and
  what meeting them means for any valuation.
- **The solver is a parameter.** It is a `SolverOutcome`: a status, an
  arbitrary valuation and a wall time. `Schedule.ResultFor` is the dict
  `solve_schedule` would return for each outcome if `_add_multi_objective`
  returned normally. As written, a request with at least two real members
  and at least one shift ends in the solver error instead (see "## Left out"). `Solver.ScheduleSolver.SolveSchedule`
  is proved to return it, to append the placeholder to the caller's member
  list, and to leave the model equal to `Schedule.ModelConstraints`.
- **The objective is evaluated, not handed to a solver.** Its terms are
  functions of a valuation (`Objective`). The loops that accumulate them
  are methods proved equal to those functions.
- **Parsed dicts share references.** A parsed dict is a `Parser.ConstraintDict`
  whose list sections are shared `RuleList` objects. This is what lets the
  model show the shallow copy of the merge: the caller's `shift_rules`
  list receives the appended rules too.

Behaviour of the code that the model keeps as written:

- coverage is only an upper bound;
- the placeholder counts towards coverage, the monthly cap, the run limit
  and the transition rules;
- the coverage override from `parsed_custom_constraints` can never fire,
  because `solve_schedule` never puts that key in the merged dict;
- shift types are grouped by keyword only;
- a December request fails, because `datetime(year, 13, 1)` raises. That
  error becomes the result `"Solver error: month must be in 1..12"`;
- the fallback roster reads neither availability nor any other hard
  constraint: it hands out the first week round-robin, so it can name a
  member for a slot marked unavailable (`Results.FallbackIgnoresAvailability`).

The files:

- `calendar.dfy`: month lengths, the `datetime` checks and the date string.
- `text.dfy`: Python's `strip`, ASCII lowercasing, substring tests and
  number formatting.
- `roster.dfy`: members, variables, constraints and their semantics.
- `builders.dfy`: availability, coverage, monthly cap and run limit.
- `custom.dfy`: the custom rules and their dispatch.
- `objective.dfy`: the objective terms.
- `results.dfy`: extraction and the fallback.
- `schedule.dfy`: the request end to end.
- `solver.dfy`: the imperative `ScheduleSolver`.
- `parser.dfy`: `constraint_parser.py`.

## Model

| member | source | states |
|---|---|---|
| Calendar.DaysInMonth | app.py:37 | The day count, the difference of the two ordinals, exists iff year is in 1..9999 and month is in 1..11 (December and other months outside that range raise). When it exists it is the Gregorian month length, between 28 and 31. |
| Calendar.DaysInMonthIsMonthLength | app.py:37 | The difference of the `datetime` ordinals (days before the year, days before the month, day) of the firsts of two consecutive months is the Gregorian month length: 29 for February exactly in a leap year, 30 for April, June, September and November, 31 otherwise. |
| Calendar.DecemberFails | app.py:37 | Month 12 always fails with the `month must be in 1..12` error, because `month + 1` is 13. |
| Calendar.DateStringDistinctDays | app.py:156 | Within one month, two days below 100 give the same `YYYY-MM-DD` string iff they are the same day. |
| Calendar.DateStringLength | app.py:156 | A four-digit year, a month and a day below 100 give a ten-character string with dashes at positions 4 and 7. |
| Text.TrimLeft | constraint_parser.py:94 | The result is a suffix of the input. Everything dropped is whitespace, and the result does not start with whitespace. |
| Text.TrimRight | constraint_parser.py:94 | The result is a prefix of the input. Everything dropped is whitespace, and the result does not end with whitespace. |
| Text.TrimIsTrimmed | constraint_parser.py:94 | `strip()` leaves no whitespace at either end. |
| Text.TrimPadded | constraint_parser.py:94-100 | Stripping a trimmed body padded with any whitespace on both sides gives the body back. |
| Text.Pad2Digits | app.py:156 | Below 100, `:02d` formatting is exactly the tens digit followed by the units digit. |
| Builders.FirstMatchSpec | app.py:163-169 | The `next(...)` lookup is None iff no entry matches the user id, shift id and date. Otherwise it is the first matching entry. |
| Builders.AvailabilityDaysSound | app.py:155-179 | Every constraint added for one member and shift is the zero constraint of an earlier day marked unavailable. |
| Builders.AvailabilityDaysComplete | app.py:155-179 | Every earlier day marked unavailable for that member and shift has its zero constraint in the list. |
| Builders.AvailabilityShiftsSound | app.py:154-179 | Every constraint added for one member is the zero constraint of a marked (shift, day). |
| Builders.AvailabilityShiftsComplete | app.py:154-179 | Every marked (shift, day) of that member has its zero constraint. |
| Builders.AvailabilityRowsSound | app.py:153-179 | Every constraint added for the first m members is the zero constraint of a marked variable. |
| Builders.AvailabilityRowsComplete | app.py:153-179 | Every marked variable of the first m members has its zero constraint. |
| Builders.AvailabilityConstraintsExactly | app.py:153-179 | The availability constraints are exactly one `x == 0` per variable whose member is real and whose first entry says `unavailable`. Missing entries, `available`, `priority` and unknown statuses add nothing, and the placeholder never gets one. |
| Builders.AvailabilitySemantics | app.py:153-179 | A valuation meets the availability constraints iff every marked variable is 0. |
| Builders.ColumnDays | app.py:216-219 | One slot constraint per day, the d-th bounding day d's column. |
| Builders.ColumnShiftsSound | app.py:215-219 | Every slot constraint bounds one listed shift on one day of the month. |
| Builders.ColumnShiftsComplete | app.py:215-219 | Every listed shift has its bound on every day. |
| Builders.ColumnShiftsSemantics | app.py:215-219 | A valuation meets the slot constraints iff every listed shift meets the bound on every day. |
| Builders.ColumnShiftsPrefix | app.py:215-219 | Later shifts only append: earlier positions keep their constraint. |
| Builders.ColumnShiftsRowAt | app.py:215-219 | The row of shift j holds day d's bound right after the constraints of the shifts before it. |
| Builders.ColumnShiftsAt | app.py:215-219 | Shift j's bound for day d sits at position `rows before j + d`. |
| Builders.ColumnShiftsLength | app.py:215-219 | i shifts give `i * days` slot constraints. |
| Builders.CoverageOnePerSlot | app.py:214-219 | Coverage adds exactly `shifts * days` constraints. The one at `s * days + d` bounds the sum over all members, the placeholder included, by `workers_per_shift` (an upper bound only). |
| Builders.CoverageSemantics | app.py:214-219 | A valuation meets coverage iff no (shift, day) has more than `workers_per_shift` members, the placeholder included. |
| Builders.CapRowsAt | app.py:230-233 | There is one cap row per member, in member order, each bounding that member's whole month. |
| Builders.MonthlyCapOnePerMember | app.py:229-233 | The cap adds exactly one constraint per member, the placeholder included. |
| Builders.MonthlyCapSemantics | app.py:229-233 | A valuation meets the cap iff no member, the placeholder included, works more than `max_days_per_month` slots. |
| Builders.RunDays | app.py:245-249 | One window per start day, the d-th covering days `d..d+k`. |
| Builders.RunRowsMember | app.py:244-249 | A constraint is a run window iff it is member i's window starting at some day `d < days - k`. |
| Builders.RunRowsLength | app.py:244-249 | There are `members * max(days - k, 0)` windows. |
| Builders.RunRowsSemantics | app.py:244-249 | A valuation meets the windows iff no member works more than k slots in any `k + 1` consecutive days. |
| Builders.RunLimitCount | app.py:238-249 | The run limit adds one window per member and start day, and none at all once k is at least the number of days. |
| CustomRules.TargetShiftsExactly | app.py:440-466 | `target_shift_indices` holds exactly the shifts the three-way test selects, in increasing order. |
| CustomRules.KeywordsIgnoredWithIdsOrNames | app.py:447-463 | Once ids or names are given, a shift is a target iff its id or its exact name is listed. Keywords play no part. |
| CustomRules.ConsecutiveRuleCount | app.py:468-483 | With no target the rule adds nothing. Otherwise it adds one window per member and start day. |
| CustomRules.ConsecutiveRuleSemantics | app.py:477-483 | When at least one shift is targeted, a valuation meets the rule iff no member works more than `max_consecutive` target-shift slots in any `max_consecutive + 1` consecutive days. |
| CustomRules.LastIndexOf | app.py:505-512 | The resolved index is None iff no shift has the id. Otherwise it is the last shift with that id. |
| CustomRules.TransitionDays | app.py:523-527 | One `x[m,f,d] + x[m,t,d+1] <= 1` per day d. |
| CustomRules.NoTransitionHolds | app.py:526 | The pair constraint holds iff the member does not work `from` on day d and `to` on day d+1. |
| CustomRules.TransitionRowsSound | app.py:522-527 | Every added constraint is one member's pair on days d and d+1 of the month. |
| CustomRules.TransitionRowsComplete | app.py:522-527 | Every member's pair on every two consecutive days is added. |
| CustomRules.TransitionRowsLength | app.py:522-527 | One resolved pair adds `members * (days - 1)` constraints. |
| CustomRules.TransitionForSemantics | app.py:498-527 | A pair with an unknown id adds nothing. A resolved pair adds `members * (days - 1)` constraints, and a valuation meets them iff no member, the placeholder included, works `from` one day and `to` the next. |
| CustomRules.TransitionRulesSemantics | app.py:498-527 | A valuation meets the transition rule iff it meets each pair's constraints. |
| CustomRules.NamedShiftsExactly | app.py:543-545 | The targets of a custom `workers_per_shift` rule are exactly the shifts whose name is listed. |
| CustomRules.WorkersRuleSemantics | app.py:547-555 | With no named shift the rule adds nothing. A valuation meets it iff every named shift has exactly `workers_required` members on every day. |
| CustomRules.SoftRulesAddNothing | app.py:304-327 | An untranslated rule adds nothing. So do `shift_preference`, `shift_rotation`, `workload_distribution` and unknown types. |
| CustomRules.CustomConstraintsStep | app.py:282-331 | Dispatching one more rule extends the list built for the earlier rules. |
| CustomRules.CustomConstraintsSemantics | app.py:282-331 | A valuation meets the custom constraints iff it meets each rule's. |
| Objective.PairPenalty | app.py:706-716 | A pair's penalty is 0 iff the two totals are equal. |
| Objective.RowPenaltyZero | app.py:705-716 | Row i of the pair loop adds nothing iff every later total equals total i. |
| Objective.PenaltyRowsZero | app.py:704-716 | The first i rows add nothing iff each of those totals equals every later one. |
| Objective.WorkloadPenaltyZero | app.py:703-719 | The workload penalty is 0 iff all real members have the same total. |
| Objective.PairPenaltyGrows | app.py:706-716 | A larger gap between two totals costs strictly more. |
| Objective.InsertThenAppend | app.py:747-749 | "Create the key if missing, then append" is the grouping step. |
| Objective.IndicesOfMember | app.py:733-749 | A group lists exactly the shifts with that key. |
| Objective.GroupsPartition | app.py:733-749 | Every shift falls in a group, and each group holds exactly the shifts of its key. |
| Objective.AddToGroupWellFormed | app.py:747-749 | The grouping step keeps the keys distinct and the key order in step with the dict. |
| Objective.GroupsWellFormed | app.py:733-749 | The filled dict has distinct keys in insertion order. |
| Objective.TypesTotalSwap | app.py:756-767 | Summing group by group and then member by member equals summing member by member and then group by group. |
| Objective.MemberTypesIsTotal | app.py:756-767 | For one member, the sum over all groups equals the member's total over all shifts. |
| Objective.MembersTypesIsTotal | app.py:756-767 | For the first n members, the sum over all groups equals their total assignments. |
| Objective.ShiftTypeTermByGroups | app.py:725-769 | The shift-type term is the sum over the groups in key order. |
| Objective.ShiftTypeTermIsRealTotal | app.py:725-769 | The shift-type term is 0 with at most one member or shift. Otherwise it equals the real members' total assignments, since each shift falls in exactly one group. |
| Objective.PriorityExcludesUnavailable | app.py:659-683 | A variable cannot both earn the priority bonus and be forced to 0 (the first matching entry decides both). |
| Objective.PriorityBonusBound | app.py:629-634 | The priority bonus never exceeds the real members' total assignments. |
| Objective.ObjectiveDecomposition | app.py:614-657 | With at least one real member (two members counting the placeholder) and at least two shifts, the 1000/100/-10/-50/-3 weights make the objective `997 * real + 990 * placeholder + 100 * priority - 50 * workload`. |
| Results.ExtractDaysSound | app.py:597-606 | Every record extracted for one member and shift comes from an earlier day whose variable is 1. |
| Results.ExtractDaysComplete | app.py:597-606 | Every such day yields its record. |
| Results.ExtractShiftsSound | app.py:596-606 | Every record extracted for one member comes from a (shift, day) whose variable is 1. |
| Results.ExtractShiftsComplete | app.py:596-606 | Every such (shift, day) yields its record. |
| Results.ExtractRowsSound | app.py:595-606 | Every record of the first m members comes from a real member's variable that is 1. |
| Results.ExtractRowsComplete | app.py:595-606 | Every such variable of the first m members yields its record. |
| Results.ExtractedExactly | app.py:595-606 | A record is extracted iff it is `{user_id, shift_id, date}` of a real member's variable that is 1. |
| Results.ExtractedEmpty | app.py:595-606 | The extracted list is empty iff no real member's variable is 1. |
| Results.ExtractDaysLength | app.py:597-606 | One member and shift yields as many records as days worked, or none for the placeholder. |
| Results.ExtractShiftsLength | app.py:596-606 | One member yields as many records as slots worked, or none for the placeholder. |
| Results.ExtractedLength | app.py:595-606 | The number of records is the real members' total assignments. |
| Results.FallbackSlots | app.py:782-792 | With at least one real member, the fallback has `min(7, days) * shifts` records. The one for day d and shift s is at position `d * shifts + s` and goes to real member `(d * shifts + s) mod R`. |
| Results.FallbackEmpty | app.py:775-799 | The fallback is empty iff there is no real member, no shift or no day. |
| Results.FallbackUsesRealMembers | app.py:785-791 | Every fallback record names a real member. |
| Results.FallbackIgnoresAvailability | app.py:775-799 | The fallback reads no availability: a one-member, one-shift, one-day request whose only slot is marked unavailable still gets that member in the fallback. |
| Schedule.DecemberIsError | app.py:135-138 | A December request is answered with `Solver error: month must be in 1..12`, whatever the solver would do. |
| Schedule.RosterOnlyWhenSolved | app.py:119-134 | The result is a roster iff `datetime` accepts the month and the status is OPTIMAL or FEASIBLE. |
| Schedule.UnsolvedIsError | app.py:130-134 | Any other status gives the error naming it. |
| Schedule.FallbackExactlyWhenNobodyWorks | app.py:124-127 | For a solved month the status is `FALLBACK` iff no real member's variable is 1. |
| Schedule.SolvedRosterRespectsAvailability | app.py:119-129 | With a valuation that meets the model, every record of a non-empty extracted roster comes from a real member's variable that is 1 and not marked unavailable. The fallback roster is excluded; it ignores availability. |
| Schedule.ModelRespectsAvailability | app.py:119-129 | For any space, every record extracted from a valuation that meets the model is a real member's 1 at a slot that no availability entry marks unavailable. |
| Schedule.ModelSemantics | app.py:73-94 | A valuation meets the model iff it meets each builder's part: availability, coverage, cap, run windows and each custom rule. |
| Schedule.MergeIdempotent | app.py:28-34 | `Merge` is a lookup of three keys with defaults 30, 20 and 2. Merging a basic-constraints dict that already carries the merged limits gives the same settings back. |
| Schedule.SpaceDatesDistinct | app.py:156 | Distinct days of the planned month have distinct date strings, so an availability entry matches at most one day. |
| Solver.ScheduleSolver.AddAvailabilityConstraints | app.py:140-195 | It appends exactly the availability constraints, and its count is their number. |
| Solver.ScheduleSolver.AddAvailabilityShifts | app.py:154-179 | It appends one member's availability constraints. |
| Solver.ScheduleSolver.AddAvailabilityDays | app.py:155-179 | It appends one member and shift's availability constraints. |
| Solver.ScheduleSolver.AddWorkersPerShiftConstraint | app.py:197-222 | It appends exactly the coverage constraints, `shifts * days` of them. |
| Solver.ScheduleSolver.AddMaxShiftsPerMonthConstraint | app.py:224-236 | It appends exactly the cap constraints, one per member. |
| Solver.ScheduleSolver.AddMaxConsecutiveShiftsConstraint | app.py:238-253 | It appends exactly the run windows, `members * max(days - k, 0)` of them. |
| Solver.ScheduleSolver.AddAiConsecutiveShiftRestriction | app.py:421-484 | It appends exactly the consecutive rule's windows over the target shifts, or nothing without a target. |
| Solver.ScheduleSolver.ResolveTransition | app.py:505-512 | Both indices are those of the last shift with each id, or None. |
| Solver.ScheduleSolver.AddTransitionRows | app.py:520-527 | It appends one resolved pair's constraints for every member and consecutive days. |
| Solver.ScheduleSolver.AddShiftTransitionRestriction | app.py:486-530 | It appends the constraints of each forbidden pair in turn; unknown ids and an empty list add nothing. |
| Solver.ScheduleSolver.AddAiWorkersPerShiftConstraint | app.py:532-558 | It appends one `sum == workers_required` per named shift and day, or nothing. |
| Solver.ScheduleSolver.AddCustomRule | app.py:283-331 | It appends exactly what the rule's type and parameters call for. |
| Solver.ScheduleSolver.ProcessCustomConstraints | app.py:274-334 | It appends every rule's constraints in order. |
| Solver.ScheduleSolver.AddCustomConstraints | app.py:256-272 | It appends every rule's constraints; an empty list adds nothing. |
| Solver.ScheduleSolver.CalculateWorkloadVariance | app.py:685-723 | The accumulated penalty is the workload term: 0 with fewer than two real members, else the pairwise penalty over their totals. |
| Solver.ScheduleSolver.MemberTotals | app.py:692-695 | The list built is one total per real member. |
| Solver.ScheduleSolver.PairwisePenalty | app.py:703-719 | The pair loops accumulate `(abs(diff) - 1)^2 * 100` or `abs(diff) * 2` over every pair i < j. |
| Solver.ScheduleSolver.CalculateShiftTypeVariance | app.py:725-773 | The returned total is the shift-type term: 0 with at most one member or at most one shift, and otherwise the real members' total assignments. |
| Solver.ScheduleSolver.SumGroups | app.py:756-767 | It sums the groups in key order. |
| Solver.ScheduleSolver.GroupShifts | app.py:733-750 | The dict it fills is the keyword grouping, with its keys in insertion order. |
| Solver.ScheduleSolver.GroupSum | app.py:758-762 | It sums one group's slots over the real members. |
| Solver.ScheduleSolver.ExtractSolution | app.py:591-612 | It returns the extracted records, `OPTIMAL` or `FEASIBLE` as reported and the wall time. |
| Solver.ScheduleSolver.SolveWithFallback | app.py:775-799 | It returns the round-robin fallback with status `FALLBACK` and solve time 0. |
| Solver.ScheduleSolver.SolveSchedule | app.py:15-138 | It returns the result for the request and outcome. A bad month changes nothing. Otherwise the placeholder is appended to the caller's list and the model holds exactly the five builders' constraints. |
| Solver.ScheduleSolver.BuildModel | app.py:73-94 | A fresh model holds the builders' constraints in call order. |
| Solver.ScheduleSolver.Answer | app.py:119-134 | A solved outcome gives the extracted roster, or the fallback when it is empty. Any other status gives the error. |
| Solver.ModSucc | app.py:792 | One step of the cycling `member_index` from `k mod R` lands on `(k + 1) mod R`, so it always equals the number of records made so far modulo R. |
| Parser.ExtractJsonContent | constraint_parser.py:94-100 | The text handed to `json.loads` is the unfenced reply, with no whitespace at either end. |
| Parser.UnfenceFenced | constraint_parser.py:94-100 | "```json" + whitespace + B + whitespace + "```" gives back any trimmed body B. |
| Parser.UnfenceUnfenced | constraint_parser.py:94-100 | A reply with neither fence is only stripped. |
| Parser.UnfenceIsTrimmed | constraint_parser.py:94-100 | The text given to `json.loads` never has whitespace at either end. |
| Parser.ValidateParsedConstraints | constraint_parser.py:112-119 | Afterwards all four sections exist and are lists. Sections that were lists and all other keys are unchanged. A missing or non-list section becomes a fresh empty list. A normalised dict is left as it was. |
| Parser.Lookup | constraint_parser.py:121-152 | The helper that reads a key of the default rule set fails iff no field has that key. |
| Parser.DefaultConstraintsShape | constraint_parser.py:121-152 | The defaults hold all four sections as lists, with no availability or member rules, `workers_per_shift` 1, `max_consecutive_days` 5 and `min_assignments_per_member` 3. |
| Parser.DbRulesMember | constraint_parser.py:161-187 | A `{type, value}` rule is appended iff its key is one of the four and its database value is truthy. |
| Parser.DbRulesLength | constraint_parser.py:161-187 | At most four rules are appended, and none iff no value is truthy. |
| Parser.DbRulesAllGiven | constraint_parser.py:161-187 | With all four given, the rules come in the order consecutive days, rest hours, workers per shift, days per month. |
| Parser.DbRulesSnoc | constraint_parser.py:161-187 | Each key's rule comes after those of the keys before it. |
| Parser.MergeWithDatabaseConstraints | constraint_parser.py:154-189 | The merged dict shares the input's sections. The shift rules keep their old rules as a prefix and gain the truthy database rules in order; the input's own list gains them too. A missing or non-list `shift_rules` fails only when there is something to append. |

## Left out

- The CP-SAT search (`Solve`, `Value`, `StatusName`, `WallTime`) is an external library. It is the `SolverOutcome` parameter: any status, any valuation and a wall time. Nothing is claimed about optimality, and the model does not require the valuation to satisfy the constraints except where a lemma says so.
- `_add_multi_objective` builds a CP expression for `Maximize`. The model evaluates the objective under a valuation (`Objective.ObjectiveValue`); the placing of the objective into the CP model is not modelled.
- `Objective.WorkloadTerm`: the source applies `abs()` and `>` to OR-Tools linear expressions. The model computes the penalty over the concrete totals that a valuation gives, as the formula reads.
- `Schedule.ResultFor`, `Schedule.RosterOnlyWhenSolved` and `Solver.ScheduleSolver.SolveSchedule` describe `solve_schedule` only on the assumption that `_add_multi_objective` returns normally. OR-Tools documents `abs()` of a linear expression, and the truth value of a comparison such as `> 1`, as raising `NotImplementedError`. `except (IndexError, TypeError)` at app.py:721 does not catch that. So with at least two real members and at least one shift, the code as written raises at app.py:709 from the call at app.py:96. It then returns `{"error": "Solver error: ..."}` from app.py:136-138 before `Solve` runs, with the placeholder still appended to `members`. The OR-Tools library is not part of this model, so this path is not modelled.
- The solve time is a `real` passed through unchanged; floating point is not modelled.
- `Text.Lower` lowercases ASCII letters only; Python's `lower()` also folds non-ASCII letters.
- The `parsed_custom_constraints` override in `_add_workers_per_shift_constraint` is not modelled. `solve_schedule` never puts that key in the merged dict, so the merged `workers_per_shift` is always used.
- The non-list `availability` skip of `_add_availability_constraints` and the non-list `custom_constraints` test are not modelled. The model's request types hold lists.
- Exceptions from malformed input are not modelled: missing dict keys (`KeyError`), dates `datetime` accepts yet other fields reject, and the per-rule `try/except` of the dispatcher. The calendar error of `days_in_month` is the only exception path of `app.py` modelled. In `constraint_parser.py`, `Parser.MergeWithDatabaseConstraints` models two failure results: the `KeyError` of a missing `shift_rules`, and the missing `append` of a non-list one.
- The `shift_specific_workers` key of the merged dict is not modelled. No builder reads it.
- The stub handlers append nothing: `_add_no_consecutive_nights_constraint`, `_add_min_rest_hours_constraint`, `_add_date_restriction_constraint`, `_add_shift_preference_constraint` and `_add_fair_distribution_constraint` are never called. `_add_ai_shift_preference_constraint` and `_add_ai_shift_rotation_constraint` are modelled by the dispatcher adding nothing (`CustomRules.SoftRulesAddNothing`).
- All logging, and the model-size counting with its version fallbacks, are left out; they do not affect the result.
- The OpenAI request in `parse_constraints` is left out; it is a network client. So is `json.loads`, a library parser. The fallback to the default rules on any exception is not modelled either. `Parser.Json` numbers are integers only.
- `Parser.Section`: an `OtherSection` stands for any non-list value. The type itself does not rule out an `OtherSection` holding a `JList`.
- The Flask endpoints and `start.py` are left out; they are HTTP and process plumbing.
- The decision variables are not allocated as CP-SAT objects. A `Var(m, s, d)` stands for `x[m, s, d]`.
