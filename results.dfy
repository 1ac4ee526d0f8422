/**
 * What a roster request returns: the assignments read off a solution
 * (`_extract_solution`), the round-robin first-week schedule used when a
 * solution assigns nobody (`_solve_with_fallback`), and the error results.
 */
module Results {
  import opened Roster
  import opened Builders
  import opened Objective

  /** One `{user_id, shift_id, date}` record of the result. */
  datatype Assignment = Assignment(userId: string, shiftId: string, date: string)

  /** The solver statuses the CP-SAT solver reports. */
  datatype SolverStatus = Optimal | Feasible | Infeasible | ModelInvalid | Unknown

  function StatusName(st: SolverStatus): string {
    match st
    case Optimal => "OPTIMAL"
    case Feasible => "FEASIBLE"
    case Infeasible => "INFEASIBLE"
    case ModelInvalid => "MODEL_INVALID"
    case Unknown => "UNKNOWN"
  }

  /** The solver's answer: its status, the value of every variable, and its wall time in seconds. */
  datatype SolverOutcome = SolverOutcome(status: SolverStatus, valuation: Valuation, wallTime: real)

  /** The dict `solve_schedule` returns: a roster, or `{"error": message}`. */
  datatype ScheduleResult =
    | Roster(assignments: seq<Assignment>, solverStatus: string, solveTime: real)
    | Error(message: string)

  // ---------------------------------------------------------------------
  // Extraction (app.py `_extract_solution`)

  /** The assignment variable `(m, s, d)` stands for. */
  function AssignmentOf(sp: Space, m: nat, s: nat, d: nat): Assignment
    requires m < |sp.members| && s < |sp.shifts|
  {
    Assignment(sp.members[m].id, sp.shifts[s].id, DateOf(sp, d))
  }

  /** Variable `(m, s, d)` is 1 and belongs to a member other than the placeholder. */
  predicate Reported(sp: Space, v: Valuation, m: nat, s: nat, d: nat) {
    m < |sp.members| && s < |sp.shifts| && d < sp.days && v(Var(m, s, d)) && !IsPlaceholder(sp.members[m])
  }

  function ExtractCell(sp: Space, v: Valuation, m: nat, s: nat, d: nat): seq<Assignment>
    requires m < |sp.members| && s < |sp.shifts|
  {
    if v(Var(m, s, d)) && !IsPlaceholder(sp.members[m]) then [AssignmentOf(sp, m, s, d)] else []
  }

  function ExtractDays(sp: Space, v: Valuation, m: nat, s: nat, d: nat): seq<Assignment>
    requires m < |sp.members| && s < |sp.shifts|
  {
    if d == 0 then [] else ExtractDays(sp, v, m, s, d - 1) + ExtractCell(sp, v, m, s, d - 1)
  }

  function ExtractShifts(sp: Space, v: Valuation, m: nat, s: nat): seq<Assignment>
    requires m < |sp.members| && s <= |sp.shifts|
  {
    if s == 0 then [] else ExtractShifts(sp, v, m, s - 1) + ExtractDays(sp, v, m, s - 1, sp.days)
  }

  function ExtractRows(sp: Space, v: Valuation, m: nat): seq<Assignment>
    requires m <= |sp.members|
  {
    if m == 0 then [] else ExtractRows(sp, v, m - 1) + ExtractShifts(sp, v, m - 1, |sp.shifts|)
  }

  /** The `assignments` list of an extracted solution, in member, shift, day order. */
  function Extracted(sp: Space, v: Valuation): seq<Assignment> {
    ExtractRows(sp, v, |sp.members|)
  }

  lemma {:induction false} ExtractDaysSound(sp: Space, v: Valuation, m: nat, s: nat, d: nat, a: Assignment) returns (d': nat)
    requires m < |sp.members| && s < |sp.shifts| && d <= sp.days && a in ExtractDays(sp, v, m, s, d)
    ensures d' < d && Reported(sp, v, m, s, d') && a == AssignmentOf(sp, m, s, d')
  {
    assert d > 0;
    var pre, cell := ExtractDays(sp, v, m, s, d - 1), ExtractCell(sp, v, m, s, d - 1);
    assert ExtractDays(sp, v, m, s, d) == pre + cell;
    if a in pre {
      d' := ExtractDaysSound(sp, v, m, s, d - 1, a);
    } else {
      d' := d - 1;
    }
  }

  lemma {:induction false} ExtractDaysComplete(sp: Space, v: Valuation, m: nat, s: nat, d: nat, d': nat)
    requires m < |sp.members| && s < |sp.shifts| && d <= sp.days && d' < d && Reported(sp, v, m, s, d')
    ensures AssignmentOf(sp, m, s, d') in ExtractDays(sp, v, m, s, d)
  {
    var pre, cell := ExtractDays(sp, v, m, s, d - 1), ExtractCell(sp, v, m, s, d - 1);
    assert ExtractDays(sp, v, m, s, d) == pre + cell;
    if d' < d - 1 {
      ExtractDaysComplete(sp, v, m, s, d - 1, d');
      assert AssignmentOf(sp, m, s, d') in pre;
    } else {
      assert cell == [AssignmentOf(sp, m, s, d')];
    }
  }

  lemma {:induction false} ExtractShiftsSound(sp: Space, v: Valuation, m: nat, s: nat, a: Assignment) returns (s': nat, d': nat)
    requires m < |sp.members| && s <= |sp.shifts| && a in ExtractShifts(sp, v, m, s)
    ensures s' < s && Reported(sp, v, m, s', d') && a == AssignmentOf(sp, m, s', d')
  {
    assert s > 0;
    var pre, row := ExtractShifts(sp, v, m, s - 1), ExtractDays(sp, v, m, s - 1, sp.days);
    assert ExtractShifts(sp, v, m, s) == pre + row;
    if a in pre {
      s', d' := ExtractShiftsSound(sp, v, m, s - 1, a);
    } else {
      s' := s - 1;
      d' := ExtractDaysSound(sp, v, m, s - 1, sp.days, a);
    }
  }

  lemma {:induction false} ExtractShiftsComplete(sp: Space, v: Valuation, m: nat, s: nat, s': nat, d': nat)
    requires m < |sp.members| && s <= |sp.shifts| && s' < s && Reported(sp, v, m, s', d')
    ensures AssignmentOf(sp, m, s', d') in ExtractShifts(sp, v, m, s)
  {
    var pre, row := ExtractShifts(sp, v, m, s - 1), ExtractDays(sp, v, m, s - 1, sp.days);
    assert ExtractShifts(sp, v, m, s) == pre + row;
    if s' < s - 1 {
      ExtractShiftsComplete(sp, v, m, s - 1, s', d');
      assert AssignmentOf(sp, m, s', d') in pre;
    } else {
      ExtractDaysComplete(sp, v, m, s', sp.days, d');
      assert AssignmentOf(sp, m, s', d') in row;
    }
  }

  lemma {:induction false} ExtractRowsSound(sp: Space, v: Valuation, m: nat, a: Assignment) returns (m': nat, s': nat, d': nat)
    requires m <= |sp.members| && a in ExtractRows(sp, v, m)
    ensures m' < m && Reported(sp, v, m', s', d') && a == AssignmentOf(sp, m', s', d')
  {
    assert m > 0;
    var pre, row := ExtractRows(sp, v, m - 1), ExtractShifts(sp, v, m - 1, |sp.shifts|);
    assert ExtractRows(sp, v, m) == pre + row;
    if a in pre {
      m', s', d' := ExtractRowsSound(sp, v, m - 1, a);
    } else {
      assert a in row;
      m' := m - 1;
      s', d' := ExtractShiftsSound(sp, v, m - 1, |sp.shifts|, a);
    }
  }

  lemma {:induction false} ExtractRowsComplete(sp: Space, v: Valuation, m: nat, m': nat, s': nat, d': nat)
    requires m <= |sp.members| && m' < m && Reported(sp, v, m', s', d')
    ensures AssignmentOf(sp, m', s', d') in ExtractRows(sp, v, m)
  {
    var pre, row := ExtractRows(sp, v, m - 1), ExtractShifts(sp, v, m - 1, |sp.shifts|);
    assert ExtractRows(sp, v, m) == pre + row;
    if m' < m - 1 {
      ExtractRowsComplete(sp, v, m - 1, m', s', d');
      assert AssignmentOf(sp, m', s', d') in pre;
    } else {
      ExtractShiftsComplete(sp, v, m', |sp.shifts|, s', d');
      assert AssignmentOf(sp, m', s', d') in row;
    }
  }

  /**
   * An assignment is extracted iff it is the record of some variable that is
   * 1 and belongs to a member other than the placeholder.
   */
  lemma ExtractedExactly(sp: Space, v: Valuation, a: Assignment)
    ensures a in Extracted(sp, v)
      <==> exists m: nat, s: nat, d: nat :: Reported(sp, v, m, s, d) && a == AssignmentOf(sp, m, s, d)
  {
    if a in Extracted(sp, v) {
      var m, s, d := ExtractRowsSound(sp, v, |sp.members|, a);
    }
    if exists m: nat, s: nat, d: nat :: Reported(sp, v, m, s, d) && a == AssignmentOf(sp, m, s, d) {
      var m: nat, s: nat, d: nat :| Reported(sp, v, m, s, d) && a == AssignmentOf(sp, m, s, d);
      ExtractRowsComplete(sp, v, |sp.members|, m, s, d);
    }
  }

  /** Extraction yields nothing iff no real member's variable is 1: this is what triggers the fallback. */
  lemma ExtractedEmpty(sp: Space, v: Valuation)
    ensures Extracted(sp, v) == [] <==> forall m: nat, s: nat, d: nat :: !Reported(sp, v, m, s, d)
  {
    if Extracted(sp, v) != [] {
      ExtractedExactly(sp, v, Extracted(sp, v)[0]);
    }
    forall m: nat, s: nat, d: nat | Reported(sp, v, m, s, d) ensures Extracted(sp, v) != [] {
      ExtractedExactly(sp, v, AssignmentOf(sp, m, s, d));
    }
  }

  /** The number of slots of the first `n` members, not counting any member with the placeholder's id. */
  function ReportedTotal(sp: Space, v: Valuation, n: nat): nat
    requires n <= |sp.members|
  {
    if n == 0 then 0
    else ReportedTotal(sp, v, n - 1) + (if IsPlaceholder(sp.members[n - 1]) then 0 else MemberTotal(v, n - 1, |sp.shifts|, sp.days))
  }

  lemma {:induction false} ExtractDaysLength(sp: Space, v: Valuation, m: nat, s: nat, d: nat)
    requires m < |sp.members| && s < |sp.shifts|
    ensures |ExtractDays(sp, v, m, s, d)| == if IsPlaceholder(sp.members[m]) then 0 else Count(v, DaySpan(m, s, 0, d))
  {
    if d > 0 {
      ExtractDaysLength(sp, v, m, s, d - 1);
      var pre, cell := ExtractDays(sp, v, m, s, d - 1), ExtractCell(sp, v, m, s, d - 1);
      assert ExtractDays(sp, v, m, s, d) == pre + cell;
      var x := Var(m, s, d - 1);
      DaySpanSnoc(m, s, 0, d - 1);
      CountConcat(v, DaySpan(m, s, 0, d - 1), [x]);
      CountSingle(v, x);
    }
  }

  lemma {:induction false} ExtractShiftsLength(sp: Space, v: Valuation, m: nat, s: nat)
    requires m < |sp.members| && s <= |sp.shifts|
    ensures |ExtractShifts(sp, v, m, s)| == if IsPlaceholder(sp.members[m]) then 0 else Count(v, Block(m, Range(s), 0, sp.days))
  {
    if s == 0 {
      assert Range(0) == [];
    } else {
      ExtractShiftsLength(sp, v, m, s - 1);
      ExtractDaysLength(sp, v, m, s - 1, sp.days);
      var pre, row := ExtractShifts(sp, v, m, s - 1), ExtractDays(sp, v, m, s - 1, sp.days);
      assert ExtractShifts(sp, v, m, s) == pre + row;
      CountBlockRangeSnoc(v, m, s - 1, sp.days);
    }
  }

  /** Exactly one record per variable that is 1, over every member but the placeholder. */
  lemma {:induction false} ExtractedLength(sp: Space, v: Valuation, n: nat)
    requires n <= |sp.members|
    ensures |ExtractRows(sp, v, n)| == ReportedTotal(sp, v, n)
  {
    if n > 0 {
      ExtractedLength(sp, v, n - 1);
      ExtractShiftsLength(sp, v, n - 1, |sp.shifts|);
    }
  }

  /** The status an extracted roster reports. */
  function ReportedStatus(st: SolverStatus): string {
    if StatusName(st) == "OPTIMAL" then "OPTIMAL" else "FEASIBLE"
  }

  // ---------------------------------------------------------------------
  // Fallback (app.py `_solve_with_fallback`)

  /** The fallback covers the first week, or the whole month if it is shorter. */
  function FallbackDays(sp: Space): nat {
    if sp.days < 7 then sp.days else 7
  }

  /** The `k`-th fallback assignment: real member `k mod R`, shift `k mod |shifts|`, day `k / |shifts|`. */
  function FallbackAt(sp: Space, k: nat): Assignment
    requires 0 < RealCount(sp) && 0 < |sp.shifts|
  {
    Assignment(sp.members[k % RealCount(sp)].id, sp.shifts[k % |sp.shifts|].id, DateOf(sp, k / |sp.shifts|))
  }

  /** The fallback's `assignments`: none at all without a real member. */
  function FallbackAssignments(sp: Space): seq<Assignment> {
    if RealCount(sp) == 0 || |sp.shifts| == 0 then []
    else seq(FallbackDays(sp) * |sp.shifts|, k requires 0 <= k => FallbackAt(sp, k))
  }

  function FallbackResult(sp: Space): ScheduleResult {
    Roster(FallbackAssignments(sp), "FALLBACK", 0.0)
  }

  /**
   * The fallback reads no availability: with one real member marked
   * unavailable for the only shift of a one-day month, the fallback still
   * assigns that member to that slot.
   */
  lemma FallbackIgnoresAvailability()
    ensures var sp := Space([Member("a", "A"), Placeholder], [Shift("s", "Early")], 1, (d: nat) => "2025-01-01");
      var av := [AvailabilityEntry("a", "s", "2025-01-01", "unavailable")];
      MarkedUnavailable(sp, av, 0, 0, 0) && FallbackAssignments(sp) == [AssignmentOf(sp, 0, 0, 0)]
  {
    var sp := Space([Member("a", "A"), Placeholder], [Shift("s", "Early")], 1, (d: nat) => "2025-01-01");
    assert RealCount(sp) == 1 && FallbackDays(sp) == 1;
    assert FallbackAssignments(sp)[0] == FallbackAt(sp, 0);
  }

  lemma DivModPair(d: nat, s: nat, n: nat)
    requires s < n
    ensures (d * n + s) / n == d && (d * n + s) % n == s
  {
    var k := d * n + s;
    var q, r := k / n, k % n;
    assert k == n * q + r;
    assert n * (q - d) == s - r;
    if q > d {
      MulAtLeastOne(q - d, n);
    } else if q < d {
      MulAtLeastOne(d - q, n);
    }
  }

  lemma MulAtLeastOne(a: int, n: nat)
    requires a >= 1
    ensures n * a >= n
  {
  }

  lemma {:induction false} SlotIndexBound(d: nat, s: nat, nd: nat, ns: nat)
    requires d < nd && s < ns
    ensures d * ns + s < nd * ns
  {
    assert d * ns + s < d * ns + ns == (d + 1) * ns;
    assert (d + 1) * ns <= nd * ns;
  }

  /**
   * Every (day, shift) slot of the first week gets exactly one assignment
   * when there is a real member, at position `d * |shifts| + s`, and the
   * members take the slots in turn; all of them are real members.
   */
  lemma FallbackSlots(sp: Space, d: nat, s: nat)
    requires 0 < RealCount(sp) && d < FallbackDays(sp) && s < |sp.shifts|
    ensures |FallbackAssignments(sp)| == FallbackDays(sp) * |sp.shifts|
    ensures d * |sp.shifts| + s < |FallbackAssignments(sp)|
    ensures FallbackAssignments(sp)[d * |sp.shifts| + s]
      == Assignment(sp.members[(d * |sp.shifts| + s) % RealCount(sp)].id, sp.shifts[s].id, DateOf(sp, d))
  {
    DivModPair(d, s, |sp.shifts|);
    SlotIndexBound(d, s, FallbackDays(sp), |sp.shifts|);
  }

  /** Without a real member, or without a shift, the fallback assigns nobody. */
  lemma FallbackEmpty(sp: Space)
    ensures FallbackAssignments(sp) == [] <==> RealCount(sp) == 0 || |sp.shifts| == 0 || sp.days == 0
  {
    if RealCount(sp) > 0 && |sp.shifts| > 0 && sp.days > 0 {
      FallbackSlots(sp, 0, 0);
    }
  }

  /** Every fallback assignment goes to a real member: one of the first `R` (never the trailing placeholder). */
  lemma FallbackUsesRealMembers(sp: Space, a: Assignment)
    requires a in FallbackAssignments(sp)
    ensures exists i :: 0 <= i < RealCount(sp) && a.userId == sp.members[i].id
  {
    var k :| 0 <= k < |FallbackAssignments(sp)| && FallbackAssignments(sp)[k] == a;
    assert 0 <= k % RealCount(sp) < RealCount(sp);
  }
}
