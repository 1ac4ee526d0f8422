/**
 * The custom team rules of a roster request (`_process_custom_constraints`
 * and the three rule kinds that add hard constraints): per-type consecutive
 * limits, forbidden shift transitions and exact staffing of named shifts.
 * Each rule kind is stated as the constraint list it adds, in the order of
 * the source's loops.
 */
module CustomRules {
  import opened Wrappers
  import opened Text
  import opened Roster
  import opened Builders

  /** One `{from_shift_id, to_shift_id}` entry of `forbidden_transitions`. */
  datatype Transition = Transition(fromShiftId: string, toShiftId: string)

  /**
   * The `parameters` dict of a custom rule, each field holding what the
   * rule kind's `.get` reads, with its default when the key is absent.
   */
  datatype Params = Params(
    maxConsecutive: int,                 // 'max_consecutive', default 0
    appliesToShifts: seq<string>,        // 'applies_to_shifts', default []
    names: seq<string>,                  // shift_identifiers 'names', default []
    keywords: seq<string>,               // shift_identifiers 'keywords', default []
    forbiddenTransitions: seq<Transition>, // 'forbidden_transitions', default []
    workersRequired: int,                // 'workers_required', default 1
    shiftNames: seq<string>)             // 'shift_names', default []

  /** `{}`: every key absent. */
  const DefaultParams: Params := Params(0, [], [], [], [], 1, [])

  /** The `ai_translation` object of a rule. */
  datatype AiTranslation = AiTranslation(constraintType: string, parameters: Params)

  /**
   * One row of the custom-constraints table: its `status`, its top-level
   * `constraint_type` ("" when absent), its optional `ai_translation` and
   * its top-level `parameters`.
   */
  datatype CustomRule = CustomRule(status: string, constraintType: string, aiTranslation: Option<AiTranslation>, parameters: Params)

  // ---------------------------------------------------------------------
  // Consecutive restriction on a set of target shifts
  // (app.py `_add_ai_consecutive_shift_restriction`)

  /** Some keyword, lowercased, occurs in the lowercased name. */
  predicate KeywordMatch(keywords: seq<string>, name: string) {
    exists kw :: kw in keywords && Contains(Lower(name), Lower(kw))
  }

  /**
   * The three-way test for a target shift: by id, else by exact name, else
   * (only when neither list was given) by keyword.
   */
  predicate IsTargetShift(p: Params, sh: Shift) {
    if sh.id in p.appliesToShifts then true
    else if sh.name in p.names then true
    else if p.appliesToShifts == [] && p.names == [] then KeywordMatch(p.keywords, sh.name)
    else false
  }

  /** The indices, in order, of the first `i` shifts that `keep` selects. */
  function TargetShifts(p: Params, shifts: seq<Shift>, i: nat): seq<nat>
    requires i <= |shifts|
  {
    if i == 0 then []
    else TargetShifts(p, shifts, i - 1) + (if IsTargetShift(p, shifts[i - 1]) then [i - 1] else [])
  }

  /** `target_shift_indices` holds exactly the targeted shifts, in increasing order. */
  lemma {:induction false} TargetShiftsExactly(p: Params, shifts: seq<Shift>, i: nat)
    requires i <= |shifts|
    ensures forall j :: j in TargetShifts(p, shifts, i) <==> 0 <= j < i && IsTargetShift(p, shifts[j])
    ensures forall a, b :: 0 <= a < b < |TargetShifts(p, shifts, i)| ==> TargetShifts(p, shifts, i)[a] < TargetShifts(p, shifts, i)[b]
  {
    if i > 0 {
      TargetShiftsExactly(p, shifts, i - 1);
      var pre := TargetShifts(p, shifts, i - 1);
      var last: seq<nat> := if IsTargetShift(p, shifts[i - 1]) then [i - 1] else [];
      assert TargetShifts(p, shifts, i) == pre + last;
      assert forall a :: 0 <= a < |pre| ==> pre[a] < i - 1 by {
        forall a | 0 <= a < |pre| ensures pre[a] < i - 1 {
          assert pre[a] in pre;
        }
      }
    }
  }

  /** Once ids or names are given, keywords play no part in the selection. */
  lemma KeywordsIgnoredWithIdsOrNames(p: Params, sh: Shift)
    requires p.appliesToShifts != [] || p.names != []
    ensures IsTargetShift(p, sh) <==> sh.id in p.appliesToShifts || sh.name in p.names
  {
  }

  /** Everything one consecutive restriction adds: nothing without a target. */
  function ConsecutiveRule(sp: Space, p: Params): seq<Constraint> {
    var ts := TargetShifts(p, sp.shifts, |sp.shifts|);
    if ts == [] then [] else RunRows(ts, sp.days, p.maxConsecutive, |sp.members|)
  }

  /**
   * With no target shift the rule adds nothing; otherwise it adds one window
   * per member (placeholder included) and start day.
   */
  lemma ConsecutiveRuleCount(sp: Space, p: Params)
    ensures TargetShifts(p, sp.shifts, |sp.shifts|) == [] ==> ConsecutiveRule(sp, p) == []
    ensures TargetShifts(p, sp.shifts, |sp.shifts|) != [] ==>
      |ConsecutiveRule(sp, p)| == |sp.members| * WindowCount(sp.days, p.maxConsecutive)
  {
    var ts := TargetShifts(p, sp.shifts, |sp.shifts|);
    if ts != [] {
      RunRowsLength(ts, sp.days, p.maxConsecutive, |sp.members|);
    }
  }

  /**
   * When some shift is targeted, a valuation meets the rule iff no member
   * works more than `max_consecutive` of the target shifts' slots within any
   * `max_consecutive + 1` consecutive days (`Window` is that bound).
   */
  lemma ConsecutiveRuleSemantics(sp: Space, p: Params, v: Valuation)
    requires TargetShifts(p, sp.shifts, |sp.shifts|) != []
    ensures Satisfies(v, ConsecutiveRule(sp, p)) <==>
      forall i: nat, d: nat :: i < |sp.members| && d < WindowCount(sp.days, p.maxConsecutive) ==>
        Holds(v, Window(i, TargetShifts(p, sp.shifts, |sp.shifts|), p.maxConsecutive, d))
  {
    RunRowsSemantics(TargetShifts(p, sp.shifts, |sp.shifts|), sp.days, p.maxConsecutive, |sp.members|, v);
  }

  // ---------------------------------------------------------------------
  // Forbidden transitions (app.py `_add_shift_transition_restriction`)

  /** The index the forward scan over the first `i` shifts settles on: the last one with that id. */
  function LastIndexOf(shifts: seq<Shift>, id: string, i: nat): (r: Option<nat>)
    requires i <= |shifts|
    ensures r.None? <==> forall j :: 0 <= j < i ==> shifts[j].id != id
    ensures r.Some? ==> r.value < i && shifts[r.value].id == id
    ensures r.Some? ==> forall j :: r.value < j < i ==> shifts[j].id != id
  {
    if i == 0 then None
    else if shifts[i - 1].id == id then Some(i - 1)
    else LastIndexOf(shifts, id, i - 1)
  }

  /** `x[m, f, d] + x[m, t, d + 1] <= 1`. */
  function NoTransition(m: nat, f: nat, t: nat, d: nat): Constraint {
    AtMost([Var(m, f, d), Var(m, t, d + 1)], 1)
  }

  function TransitionDays(m: nat, f: nat, t: nat, d: nat): (r: seq<Constraint>)
    ensures |r| == d
    ensures forall d' :: 0 <= d' < d ==> r[d'] == NoTransition(m, f, t, d')
  {
    if d == 0 then [] else TransitionDays(m, f, t, d - 1) + [NoTransition(m, f, t, d - 1)]
  }

  function TransitionRows(f: nat, t: nat, nd: nat, m: nat): seq<Constraint> {
    if m == 0 then [] else TransitionRows(f, t, nd, m - 1) + TransitionDays(m - 1, f, t, WindowCount(nd, 1))
  }

  /** The constraints one forbidden pair adds: none when either id is unknown. */
  function TransitionFor(sp: Space, tr: Transition): seq<Constraint> {
    var f := LastIndexOf(sp.shifts, tr.fromShiftId, |sp.shifts|);
    var t := LastIndexOf(sp.shifts, tr.toShiftId, |sp.shifts|);
    if f.None? || t.None? then [] else TransitionRows(f.value, t.value, sp.days, |sp.members|)
  }

  /** The constraints of the first `i` forbidden pairs. */
  function TransitionRules(sp: Space, trs: seq<Transition>, i: nat): seq<Constraint>
    requires i <= |trs|
  {
    if i == 0 then [] else TransitionRules(sp, trs, i - 1) + TransitionFor(sp, trs[i - 1])
  }

  /** Appending one more pair's constraints extends the list built for the earlier pairs. */
  lemma TransitionRulesStep(sp: Space, trs: seq<Transition>, k: nat, base: seq<Constraint>, before: seq<Constraint>, after: seq<Constraint>)
    requires k < |trs|
    requires before == base + TransitionRules(sp, trs, k)
    requires after == before + TransitionFor(sp, trs[k])
    ensures after == base + TransitionRules(sp, trs, k + 1)
  {
  }

  /** Member `m` works shift `f` on day `d` and shift `t` the next day. */
  predicate WorksPair(v: Valuation, m: nat, f: nat, t: nat, d: nat) {
    v(Var(m, f, d)) && v(Var(m, t, d + 1))
  }

  lemma NoTransitionHolds(v: Valuation, m: nat, f: nat, t: nat, d: nat)
    ensures Holds(v, NoTransition(m, f, t, d)) <==> !WorksPair(v, m, f, t, d)
  {
    var ts := [Var(m, f, d), Var(m, t, d + 1)];
    assert ts[1..][1..] == [];
    assert Count(v, ts[1..]) == (if v(ts[1]) then 1 else 0) + Count(v, ts[1..][1..]);
    assert Count(v, ts) == (if v(ts[0]) then 1 else 0) + Count(v, ts[1..]);
  }

  /** Every constraint of the first `m` members' rows is one member's pair on consecutive days. */
  lemma {:induction false} TransitionRowsSound(f: nat, t: nat, nd: nat, m: nat, c: Constraint) returns (i: nat, d: nat)
    requires c in TransitionRows(f, t, nd, m)
    ensures i < m && d + 1 < nd && c == NoTransition(i, f, t, d)
  {
    assert m > 0;
    var pre, row := TransitionRows(f, t, nd, m - 1), TransitionDays(m - 1, f, t, WindowCount(nd, 1));
    assert TransitionRows(f, t, nd, m) == pre + row;
    if c in pre {
      i, d := TransitionRowsSound(f, t, nd, m - 1, c);
    } else {
      assert c in row;
      var k :| 0 <= k < |row| && row[k] == c;
      i, d := m - 1, k;
    }
  }

  /** Every member's pair on consecutive days is among the first `m` members' rows. */
  lemma {:induction false} TransitionRowsComplete(f: nat, t: nat, nd: nat, m: nat, i: nat, d: nat)
    requires i < m && d + 1 < nd
    ensures NoTransition(i, f, t, d) in TransitionRows(f, t, nd, m)
  {
    var pre, row := TransitionRows(f, t, nd, m - 1), TransitionDays(m - 1, f, t, WindowCount(nd, 1));
    assert TransitionRows(f, t, nd, m) == pre + row;
    if i < m - 1 {
      TransitionRowsComplete(f, t, nd, m - 1, i, d);
      assert NoTransition(i, f, t, d) in pre;
    } else {
      assert row[d] == NoTransition(i, f, t, d);
      assert NoTransition(i, f, t, d) in row;
    }
  }

  lemma {:induction false} TransitionRowsLength(f: nat, t: nat, nd: nat, m: nat)
    ensures |TransitionRows(f, t, nd, m)| == m * WindowCount(nd, 1)
  {
    if m > 0 {
      TransitionRowsLength(f, t, nd, m - 1);
      assert (m - 1) * WindowCount(nd, 1) + WindowCount(nd, 1) == m * WindowCount(nd, 1);
    }
  }

  /** The pair is resolved, by the last shift carrying each id, to `f` and `t`. */
  predicate Resolves(sp: Space, tr: Transition, f: nat, t: nat) {
    LastIndexOf(sp.shifts, tr.fromShiftId, |sp.shifts|) == Some(f)
    && LastIndexOf(sp.shifts, tr.toShiftId, |sp.shifts|) == Some(t)
  }

  /**
   * A pair with an unknown id adds nothing. A resolved pair adds
   * `members * (days - 1)` constraints, and a valuation meets them iff no
   * member (placeholder included) works `from` on one day and `to` the next.
   */
  lemma TransitionForSemantics(sp: Space, tr: Transition, v: Valuation)
    ensures (forall f: nat, t: nat :: !Resolves(sp, tr, f, t)) ==> TransitionFor(sp, tr) == []
    ensures forall f: nat, t: nat :: Resolves(sp, tr, f, t) ==>
      |TransitionFor(sp, tr)| == |sp.members| * WindowCount(sp.days, 1)
      && (Satisfies(v, TransitionFor(sp, tr)) <==>
          forall i: nat, d: nat :: i < |sp.members| && d + 1 < sp.days ==> !WorksPair(v, i, f, t, d))
  {
    var fo := LastIndexOf(sp.shifts, tr.fromShiftId, |sp.shifts|);
    var to := LastIndexOf(sp.shifts, tr.toShiftId, |sp.shifts|);
    if fo.Some? && to.Some? {
      var f, t := fo.value, to.value;
      assert Resolves(sp, tr, f, t);
      TransitionRowsLength(f, t, sp.days, |sp.members|);
      var cs := TransitionFor(sp, tr);
      if Satisfies(v, cs) {
        forall i: nat, d: nat | i < |sp.members| && d + 1 < sp.days ensures !WorksPair(v, i, f, t, d) {
          TransitionRowsComplete(f, t, sp.days, |sp.members|, i, d);
          NoTransitionHolds(v, i, f, t, d);
        }
      }
      if forall i: nat, d: nat :: i < |sp.members| && d + 1 < sp.days ==> !WorksPair(v, i, f, t, d) {
        forall c | c in cs ensures Holds(v, c) {
          var i, d := TransitionRowsSound(f, t, sp.days, |sp.members|, c);
          NoTransitionHolds(v, i, f, t, d);
        }
      }
    }
  }

  /** The transition rule's constraints are those of each pair in turn. */
  lemma {:induction false} TransitionRulesSemantics(sp: Space, trs: seq<Transition>, i: nat, v: Valuation)
    requires i <= |trs|
    ensures Satisfies(v, TransitionRules(sp, trs, i)) <==> forall j :: 0 <= j < i ==> Satisfies(v, TransitionFor(sp, trs[j]))
  {
    if i > 0 {
      TransitionRulesSemantics(sp, trs, i - 1, v);
      var a, b := TransitionRules(sp, trs, i - 1), TransitionFor(sp, trs[i - 1]);
      assert TransitionRules(sp, trs, i) == a + b;
      SatisfiesConcat(v, a, b);
    }
  }

  // ---------------------------------------------------------------------
  // Exact staffing of named shifts (app.py `_add_ai_workers_per_shift_constraint`)

  /** The indices, in order, of the first `i` shifts whose name is listed. */
  function NamedShifts(names: seq<string>, shifts: seq<Shift>, i: nat): seq<nat>
    requires i <= |shifts|
  {
    if i == 0 then []
    else NamedShifts(names, shifts, i - 1) + (if shifts[i - 1].name in names then [i - 1] else [])
  }

  lemma {:induction false} NamedShiftsExactly(names: seq<string>, shifts: seq<Shift>, i: nat)
    requires i <= |shifts|
    ensures forall j :: j in NamedShifts(names, shifts, i) <==> 0 <= j < i && shifts[j].name in names
  {
    if i > 0 {
      NamedShiftsExactly(names, shifts, i - 1);
      var last: seq<nat> := if shifts[i - 1].name in names then [i - 1] else [];
      assert NamedShifts(names, shifts, i) == NamedShifts(names, shifts, i - 1) + last;
    }
  }

  /** Everything one custom `workers_per_shift` rule adds. */
  function WorkersRule(sp: Space, p: Params): seq<Constraint> {
    var ts := NamedShifts(p.shiftNames, sp.shifts, |sp.shifts|);
    if ts == [] then [] else ColumnShifts(true, |sp.members|, ts, sp.days, p.workersRequired, |ts|)
  }

  /**
   * A valuation meets a custom `workers_per_shift` rule iff every shift whose
   * name is listed has exactly `workers_required` members (placeholder
   * included) on every day; with no such shift the rule adds nothing.
   */
  lemma WorkersRuleSemantics(sp: Space, p: Params, v: Valuation)
    ensures NamedShifts(p.shiftNames, sp.shifts, |sp.shifts|) == [] ==> WorkersRule(sp, p) == []
    ensures Satisfies(v, WorkersRule(sp, p)) <==>
      forall s: nat, d: nat :: s < |sp.shifts| && sp.shifts[s].name in p.shiftNames && d < sp.days ==>
        Count(v, Column(|sp.members|, s, d)) == p.workersRequired
  {
    var ts := NamedShifts(p.shiftNames, sp.shifts, |sp.shifts|);
    NamedShiftsExactly(p.shiftNames, sp.shifts, |sp.shifts|);
    var k := p.workersRequired;
    var nm := |sp.members|;
    if ts != [] {
      ColumnShiftsSemantics(true, nm, ts, sp.days, k, v);
      if Satisfies(v, WorkersRule(sp, p)) {
        forall s: nat, d: nat | s < |sp.shifts| && sp.shifts[s].name in p.shiftNames && d < sp.days
          ensures Count(v, Column(nm, s, d)) == k
        {
          var j :| 0 <= j < |ts| && ts[j] == s;
          assert Holds(v, ColumnBound(true, nm, ts[j], d, k));
        }
      }
      if forall s: nat, d: nat :: s < |sp.shifts| && sp.shifts[s].name in p.shiftNames && d < sp.days ==>
          Count(v, Column(nm, s, d)) == k
      {
        forall j: nat, d: nat | j < |ts| && d < sp.days ensures Holds(v, ColumnBound(true, nm, ts[j], d, k)) {
          assert ts[j] in ts;
        }
      }
    }
  }

  // ---------------------------------------------------------------------
  // Dispatch (app.py `_process_custom_constraints`)

  /** The rule's type: the top-level one, or the translation's when that is empty. */
  function RuleType(r: CustomRule): string {
    if r.constraintType == "" && r.aiTranslation.Some? then r.aiTranslation.value.constraintType
    else r.constraintType
  }

  /** The translation's parameters when it is present, else the top-level ones. */
  function RuleParams(r: CustomRule): Params {
    if r.aiTranslation.Some? then r.aiTranslation.value.parameters else r.parameters
  }

  /** The rule types that add hard constraints. */
  predicate IsHardType(t: string) {
    t == "consecutive_shift_restriction" || t == "workers_per_shift" || t == "shift_transition_restriction"
  }

  /** What one rule adds to the model. */
  function RuleConstraints(sp: Space, r: CustomRule): seq<Constraint> {
    if r.status != "translated" then []
    else
      var p := RuleParams(r);
      match RuleType(r)
      case "consecutive_shift_restriction" => ConsecutiveRule(sp, p)
      case "workers_per_shift" => WorkersRule(sp, p)
      case "shift_transition_restriction" => TransitionRules(sp, p.forbiddenTransitions, |p.forbiddenTransitions|)
      case _ => []
  }

  /**
   * A rule adds nothing unless it is translated and of a hard type; in
   * particular `shift_preference`, `shift_rotation`, `workload_distribution`
   * and unknown types add nothing.
   */
  lemma SoftRulesAddNothing(sp: Space, r: CustomRule)
    ensures r.status != "translated" || !IsHardType(RuleType(r)) ==> RuleConstraints(sp, r) == []
  {
  }

  /** Each rule's constraint list, rule by rule. */
  function RuleLists(sp: Space, rules: seq<CustomRule>): (r: seq<seq<Constraint>>)
    ensures |r| == |rules|
  {
    seq(|rules|, j requires 0 <= j < |rules| => RuleConstraints(sp, rules[j]))
  }

  /** Everything `_add_custom_constraints` adds for the first `i` rules. */
  function CustomConstraints(sp: Space, rules: seq<CustomRule>, i: nat): seq<Constraint>
    requires i <= |rules|
  {
    Flatten(RuleLists(sp, rules)[..i])
  }

  /** Appending one more rule's constraints extends the list the dispatcher has built. */
  lemma CustomConstraintsStep(sp: Space, rules: seq<CustomRule>, i: nat, base: seq<Constraint>, before: seq<Constraint>, after: seq<Constraint>)
    requires i < |rules|
    requires before == base + CustomConstraints(sp, rules, i)
    requires after == before + RuleConstraints(sp, rules[i])
    ensures after == base + CustomConstraints(sp, rules, i + 1)
  {
    FlattenPrefixStep(RuleLists(sp, rules), i, base, before, after);
  }

  /** A valuation meets the custom constraints iff it meets each rule's. */
  lemma CustomConstraintsSemantics(sp: Space, rules: seq<CustomRule>, i: nat, v: Valuation)
    requires i <= |rules|
    ensures Satisfies(v, CustomConstraints(sp, rules, i)) <==> forall j :: 0 <= j < i ==> Satisfies(v, RuleConstraints(sp, rules[j]))
  {
    var ls := RuleLists(sp, rules)[..i];
    FlattenSemantics(v, ls);
    assert forall j :: 0 <= j < i ==> ls[j] == RuleConstraints(sp, rules[j]);
  }
}
