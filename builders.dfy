/**
 * The hard-constraint builders of the roster model, each stated as the list
 * of constraints it hands to the CP model. Every list is built in the order
 * of the source's nested loops (members, then shifts, then days), so the
 * builder methods of `ScheduleSolver` can be proved against these functions,
 * and the lemmas here say what any valuation meeting the list satisfies.
 */
module Builders {
  import opened Wrappers
  import opened Text
  import opened Calendar
  import opened Roster

  /**
   * The request data every builder reads: the member list with the
   * placeholder already appended, the shifts, the number of days of the
   * month being planned, and the `date_str` the loops compute for each day
   * index (`Schedule.SpaceOf` fixes it to the formatted date).
   */
  datatype Space = Space(members: seq<Member>, shifts: seq<Shift>, days: nat, dateStr: nat -> string)

  /** The date string of day index `d` (day `d + 1` of the month). */
  function DateOf(sp: Space, d: nat): string {
    sp.dateStr(d)
  }

  // ---------------------------------------------------------------------
  // Availability (app.py `_add_availability_constraints`)

  predicate Matches(e: AvailabilityEntry, userId: string, shiftId: string, date: string) {
    e.userId == userId && e.shiftId == shiftId && e.date == date
  }

  /** `av[i]` is the first entry of `av` that matches the key. */
  predicate IsFirstMatch(av: seq<AvailabilityEntry>, i: nat, userId: string, shiftId: string, date: string) {
    i < |av| && Matches(av[i], userId, shiftId, date)
    && forall j :: 0 <= j < i ==> !Matches(av[j], userId, shiftId, date)
  }

  /** `next((a for a in av if <a matches the key>), None)`. */
  function FirstMatch(av: seq<AvailabilityEntry>, userId: string, shiftId: string, date: string): Option<AvailabilityEntry> {
    if av == [] then None
    else if Matches(av[0], userId, shiftId, date) then Some(av[0])
    else FirstMatch(av[1..], userId, shiftId, date)
  }

  /** The lookup finds nothing iff no entry matches, and otherwise the first entry that does. */
  lemma {:induction false} FirstMatchSpec(av: seq<AvailabilityEntry>, userId: string, shiftId: string, date: string)
    ensures FirstMatch(av, userId, shiftId, date).None? <==> forall e :: e in av ==> !Matches(e, userId, shiftId, date)
    ensures FirstMatch(av, userId, shiftId, date).Some? ==>
      exists i: nat :: IsFirstMatch(av, i, userId, shiftId, date) && av[i] == FirstMatch(av, userId, shiftId, date).value
  {
    if av != [] {
      if Matches(av[0], userId, shiftId, date) {
        assert IsFirstMatch(av, 0, userId, shiftId, date);
      } else {
        var r := FirstMatch(av[1..], userId, shiftId, date);
        FirstMatchSpec(av[1..], userId, shiftId, date);
        if r.Some? {
          var i: nat :| IsFirstMatch(av[1..], i, userId, shiftId, date) && av[1..][i] == r.value;
          assert IsFirstMatch(av, i + 1, userId, shiftId, date);
        }
        assert av == [av[0]] + av[1..];
      }
    }
  }

  /**
   * Variable `(m, s, d)` is forced to 0: the member is a real one and the
   * first availability entry for its id, the shift's id and the day's date
   * says `unavailable`.
   */
  predicate MarkedUnavailable(sp: Space, av: seq<AvailabilityEntry>, m: nat, s: nat, d: nat) {
    m < |sp.members| && s < |sp.shifts| && !IsPlaceholder(sp.members[m])
    && var e := FirstMatch(av, sp.members[m].id, sp.shifts[s].id, DateOf(sp, d));
       e.Some? && e.value.status == "unavailable"
  }

  function AvailabilityCell(sp: Space, av: seq<AvailabilityEntry>, m: nat, s: nat, d: nat): seq<Constraint> {
    if MarkedUnavailable(sp, av, m, s, d) then [Zero(Var(m, s, d))] else []
  }

  function AvailabilityDays(sp: Space, av: seq<AvailabilityEntry>, m: nat, s: nat, d: nat): seq<Constraint> {
    if d == 0 then [] else AvailabilityDays(sp, av, m, s, d - 1) + AvailabilityCell(sp, av, m, s, d - 1)
  }

  function AvailabilityShifts(sp: Space, av: seq<AvailabilityEntry>, m: nat, s: nat): seq<Constraint> {
    if s == 0 then [] else AvailabilityShifts(sp, av, m, s - 1) + AvailabilityDays(sp, av, m, s - 1, sp.days)
  }

  function AvailabilityRows(sp: Space, av: seq<AvailabilityEntry>, m: nat): seq<Constraint> {
    if m == 0 then [] else AvailabilityRows(sp, av, m - 1) + AvailabilityShifts(sp, av, m - 1, |sp.shifts|)
  }

  /** Everything `_add_availability_constraints` adds. */
  function AvailabilityConstraints(sp: Space, av: seq<AvailabilityEntry>): seq<Constraint> {
    AvailabilityRows(sp, av, |sp.members|)
  }

  lemma AvailabilityCellMember(sp: Space, av: seq<AvailabilityEntry>, m: nat, s: nat, d: nat, c: Constraint)
    ensures c in AvailabilityCell(sp, av, m, s, d) <==> MarkedUnavailable(sp, av, m, s, d) && c == Zero(Var(m, s, d))
  {
  }

  lemma {:induction false} AvailabilityDaysSound(sp: Space, av: seq<AvailabilityEntry>, m: nat, s: nat, d: nat, c: Constraint)
      returns (d': nat)
    requires c in AvailabilityDays(sp, av, m, s, d)
    ensures d' < d && MarkedUnavailable(sp, av, m, s, d') && c == Zero(Var(m, s, d'))
  {
    assert d > 0;
    var pre, cell := AvailabilityDays(sp, av, m, s, d - 1), AvailabilityCell(sp, av, m, s, d - 1);
    assert AvailabilityDays(sp, av, m, s, d) == pre + cell;
    if c in pre {
      d' := AvailabilityDaysSound(sp, av, m, s, d - 1, c);
    } else {
      d' := d - 1;
    }
  }

  lemma {:induction false} AvailabilityDaysComplete(sp: Space, av: seq<AvailabilityEntry>, m: nat, s: nat, d: nat, d': nat)
    requires d' < d && MarkedUnavailable(sp, av, m, s, d')
    ensures Zero(Var(m, s, d')) in AvailabilityDays(sp, av, m, s, d)
  {
    var pre, cell := AvailabilityDays(sp, av, m, s, d - 1), AvailabilityCell(sp, av, m, s, d - 1);
    assert AvailabilityDays(sp, av, m, s, d) == pre + cell;
    if d' < d - 1 {
      AvailabilityDaysComplete(sp, av, m, s, d - 1, d');
      assert Zero(Var(m, s, d')) in pre;
    } else {
      assert cell == [Zero(Var(m, s, d'))];
    }
  }

  lemma {:induction false} AvailabilityShiftsSound(sp: Space, av: seq<AvailabilityEntry>, m: nat, s: nat, c: Constraint)
      returns (s': nat, d': nat)
    requires c in AvailabilityShifts(sp, av, m, s)
    ensures s' < s && d' < sp.days && MarkedUnavailable(sp, av, m, s', d') && c == Zero(Var(m, s', d'))
  {
    assert s > 0;
    var pre, row := AvailabilityShifts(sp, av, m, s - 1), AvailabilityDays(sp, av, m, s - 1, sp.days);
    assert AvailabilityShifts(sp, av, m, s) == pre + row;
    if c in pre {
      s', d' := AvailabilityShiftsSound(sp, av, m, s - 1, c);
    } else {
      s' := s - 1;
      d' := AvailabilityDaysSound(sp, av, m, s - 1, sp.days, c);
    }
  }

  lemma {:induction false} AvailabilityShiftsComplete(sp: Space, av: seq<AvailabilityEntry>, m: nat, s: nat, s': nat, d': nat)
    requires s' < s && d' < sp.days && MarkedUnavailable(sp, av, m, s', d')
    ensures Zero(Var(m, s', d')) in AvailabilityShifts(sp, av, m, s)
  {
    var pre, row := AvailabilityShifts(sp, av, m, s - 1), AvailabilityDays(sp, av, m, s - 1, sp.days);
    assert AvailabilityShifts(sp, av, m, s) == pre + row;
    if s' < s - 1 {
      AvailabilityShiftsComplete(sp, av, m, s - 1, s', d');
      assert Zero(Var(m, s', d')) in pre;
    } else {
      AvailabilityDaysComplete(sp, av, m, s', sp.days, d');
      assert Zero(Var(m, s', d')) in row;
    }
  }

  lemma {:induction false} AvailabilityRowsSound(sp: Space, av: seq<AvailabilityEntry>, m: nat, c: Constraint)
      returns (m': nat, s': nat, d': nat)
    requires c in AvailabilityRows(sp, av, m)
    ensures m' < m && d' < sp.days && MarkedUnavailable(sp, av, m', s', d') && c == Zero(Var(m', s', d'))
  {
    assert m > 0;
    var pre, row := AvailabilityRows(sp, av, m - 1), AvailabilityShifts(sp, av, m - 1, |sp.shifts|);
    assert AvailabilityRows(sp, av, m) == pre + row;
    if c in pre {
      m', s', d' := AvailabilityRowsSound(sp, av, m - 1, c);
    } else {
      m' := m - 1;
      s', d' := AvailabilityShiftsSound(sp, av, m - 1, |sp.shifts|, c);
    }
  }

  lemma {:induction false} AvailabilityRowsComplete(sp: Space, av: seq<AvailabilityEntry>, m: nat, m': nat, s': nat, d': nat)
    requires m' < m && d' < sp.days && MarkedUnavailable(sp, av, m', s', d')
    ensures Zero(Var(m', s', d')) in AvailabilityRows(sp, av, m)
  {
    var pre, row := AvailabilityRows(sp, av, m - 1), AvailabilityShifts(sp, av, m - 1, |sp.shifts|);
    assert AvailabilityRows(sp, av, m) == pre + row;
    if m' < m - 1 {
      AvailabilityRowsComplete(sp, av, m - 1, m', s', d');
      assert Zero(Var(m', s', d')) in pre;
    } else {
      AvailabilityShiftsComplete(sp, av, m', |sp.shifts|, s', d');
      assert Zero(Var(m', s', d')) in row;
    }
  }

  /**
   * The availability constraints are exactly one `x[m, s, d] == 0` per
   * variable whose member is real and whose first matching entry says
   * `unavailable`: a missing entry, `available`, `priority` or any other
   * status adds nothing, and the placeholder never gets one.
   */
  lemma AvailabilityConstraintsExactly(sp: Space, av: seq<AvailabilityEntry>, c: Constraint)
    ensures c in AvailabilityConstraints(sp, av)
        <==> exists m: nat, s: nat, d: nat :: d < sp.days && MarkedUnavailable(sp, av, m, s, d) && c == Zero(Var(m, s, d))
  {
    if c in AvailabilityConstraints(sp, av) {
      var m, s, d := AvailabilityRowsSound(sp, av, |sp.members|, c);
    }
    if exists m: nat, s: nat, d: nat :: d < sp.days && MarkedUnavailable(sp, av, m, s, d) && c == Zero(Var(m, s, d)) {
      var m: nat, s: nat, d: nat :| d < sp.days && MarkedUnavailable(sp, av, m, s, d) && c == Zero(Var(m, s, d));
      AvailabilityRowsComplete(sp, av, |sp.members|, m, s, d);
    }
  }

  /** A valuation meets the availability constraints iff every marked variable is 0. */
  lemma AvailabilitySemantics(sp: Space, av: seq<AvailabilityEntry>, v: Valuation)
    ensures Satisfies(v, AvailabilityConstraints(sp, av))
        <==> forall m: nat, s: nat, d: nat :: d < sp.days && MarkedUnavailable(sp, av, m, s, d) ==> !v(Var(m, s, d))
  {
    var cs := AvailabilityConstraints(sp, av);
    if Satisfies(v, cs) {
      forall m: nat, s: nat, d: nat | d < sp.days && MarkedUnavailable(sp, av, m, s, d) ensures !v(Var(m, s, d)) {
        AvailabilityConstraintsExactly(sp, av, Zero(Var(m, s, d)));
      }
    }
    if forall m: nat, s: nat, d: nat :: d < sp.days && MarkedUnavailable(sp, av, m, s, d) ==> !v(Var(m, s, d)) {
      forall c | c in cs ensures Holds(v, c) {
        AvailabilityConstraintsExactly(sp, av, c);
      }
    }
  }

  // ---------------------------------------------------------------------
  // Per-slot coverage (app.py `_add_workers_per_shift_constraint`, and the
  // exact form of `_add_ai_workers_per_shift_constraint`)

  /** `sum(x[m, s, d] for m in range(nm))` bounded above by, or equal to, `k`. */
  function ColumnBound(exact: bool, nm: nat, s: nat, d: nat, k: int): Constraint {
    if exact then Exactly(Column(nm, s, d), k) else AtMost(Column(nm, s, d), k)
  }

  function ColumnDays(exact: bool, nm: nat, s: nat, k: int, d: nat): (r: seq<Constraint>)
    ensures |r| == d
    ensures forall d' :: 0 <= d' < d ==> r[d'] == ColumnBound(exact, nm, s, d', k)
  {
    if d == 0 then [] else ColumnDays(exact, nm, s, k, d - 1) + [ColumnBound(exact, nm, s, d - 1, k)]
  }

  /** One slot constraint per day for each of the first `i` shifts of `ss`. */
  function ColumnShifts(exact: bool, nm: nat, ss: seq<nat>, nd: nat, k: int, i: nat): seq<Constraint>
    requires i <= |ss|
  {
    if i == 0 then [] else ColumnShifts(exact, nm, ss, nd, k, i - 1) + ColumnDays(exact, nm, ss[i - 1], k, nd)
  }

  /** Everything `_add_workers_per_shift_constraint` adds, for limit `k`. */
  function CoverageConstraints(sp: Space, k: int): seq<Constraint> {
    ColumnShifts(false, |sp.members|, Range(|sp.shifts|), sp.days, k, |sp.shifts|)
  }

  /** Every slot constraint of the first `i` shifts bounds one of them on one day. */
  lemma {:induction false} ColumnShiftsSound(exact: bool, nm: nat, ss: seq<nat>, nd: nat, k: int, i: nat, c: Constraint) returns (j: nat, d: nat)
    requires i <= |ss| && c in ColumnShifts(exact, nm, ss, nd, k, i)
    ensures j < i && d < nd && c == ColumnBound(exact, nm, ss[j], d, k)
  {
    assert i > 0;
    var pre, row := ColumnShifts(exact, nm, ss, nd, k, i - 1), ColumnDays(exact, nm, ss[i - 1], k, nd);
    assert ColumnShifts(exact, nm, ss, nd, k, i) == pre + row;
    if c in pre {
      j, d := ColumnShiftsSound(exact, nm, ss, nd, k, i - 1, c);
    } else {
      assert c in row;
      var e :| 0 <= e < nd && row[e] == c;
      j, d := i - 1, e;
    }
  }

  /** Each of the first `i` shifts has its bound on every day among the slot constraints. */
  lemma {:induction false} ColumnShiftsComplete(exact: bool, nm: nat, ss: seq<nat>, nd: nat, k: int, i: nat, j: nat, d: nat)
    requires i <= |ss| && j < i && d < nd
    ensures ColumnBound(exact, nm, ss[j], d, k) in ColumnShifts(exact, nm, ss, nd, k, i)
  {
    var pre, row := ColumnShifts(exact, nm, ss, nd, k, i - 1), ColumnDays(exact, nm, ss[i - 1], k, nd);
    assert ColumnShifts(exact, nm, ss, nd, k, i) == pre + row;
    if j < i - 1 {
      ColumnShiftsComplete(exact, nm, ss, nd, k, i - 1, j, d);
      assert ColumnBound(exact, nm, ss[j], d, k) in pre;
    } else {
      assert row[d] == ColumnBound(exact, nm, ss[j], d, k);
      assert ColumnBound(exact, nm, ss[j], d, k) in row;
    }
  }

  /** A valuation meets the slot constraints iff every listed shift meets the bound on every day. */
  lemma ColumnShiftsSemantics(exact: bool, nm: nat, ss: seq<nat>, nd: nat, k: int, v: Valuation)
    ensures Satisfies(v, ColumnShifts(exact, nm, ss, nd, k, |ss|))
        <==> forall j: nat, d: nat :: j < |ss| && d < nd ==> Holds(v, ColumnBound(exact, nm, ss[j], d, k))
  {
    var cs := ColumnShifts(exact, nm, ss, nd, k, |ss|);
    if Satisfies(v, cs) {
      forall j: nat, d: nat | j < |ss| && d < nd ensures Holds(v, ColumnBound(exact, nm, ss[j], d, k)) {
        ColumnShiftsComplete(exact, nm, ss, nd, k, |ss|, j, d);
      }
    }
    if forall j: nat, d: nat :: j < |ss| && d < nd ==> Holds(v, ColumnBound(exact, nm, ss[j], d, k)) {
      forall c | c in cs ensures Holds(v, c) {
        var j, d := ColumnShiftsSound(exact, nm, ss, nd, k, |ss|, c);
      }
    }
  }

  /** Later shifts only append: position `n` of the first `i` shifts' list keeps its constraint. */
  lemma {:induction false} ColumnShiftsPrefix(exact: bool, nm: nat, ss: seq<nat>, nd: nat, k: int, i: nat, j: nat, n: nat)
    requires i <= j <= |ss| && n < |ColumnShifts(exact, nm, ss, nd, k, i)|
    ensures n < |ColumnShifts(exact, nm, ss, nd, k, j)|
    ensures ColumnShifts(exact, nm, ss, nd, k, j)[n] == ColumnShifts(exact, nm, ss, nd, k, i)[n]
  {
    if i < j {
      ColumnShiftsPrefix(exact, nm, ss, nd, k, i, j - 1, n);
      var a, b := ColumnShifts(exact, nm, ss, nd, k, j - 1), ColumnDays(exact, nm, ss[j - 1], k, nd);
      assert ColumnShifts(exact, nm, ss, nd, k, j) == a + b;
      assert (a + b)[n] == a[n];
    }
  }

  lemma ColumnShiftsRowAt(exact: bool, nm: nat, ss: seq<nat>, nd: nat, k: int, j: nat, d: nat)
    requires j < |ss| && d < nd
    ensures |ColumnShifts(exact, nm, ss, nd, k, j)| + d < |ColumnShifts(exact, nm, ss, nd, k, j + 1)|
    ensures ColumnShifts(exact, nm, ss, nd, k, j + 1)[|ColumnShifts(exact, nm, ss, nd, k, j)| + d] == ColumnBound(exact, nm, ss[j], d, k)
  {
    var a, b := ColumnShifts(exact, nm, ss, nd, k, j), ColumnDays(exact, nm, ss[j], k, nd);
    assert ColumnShifts(exact, nm, ss, nd, k, j + 1) == a + b;
    assert (a + b)[|a| + d] == b[d];
  }

  /** Shift `ss[j]`'s constraint for day `d` follows the rows of the shifts before it. */
  lemma {:induction false} ColumnShiftsAt(exact: bool, nm: nat, ss: seq<nat>, nd: nat, k: int, i: nat, j: nat, d: nat)
    requires i <= |ss| && j < i && d < nd
    ensures |ColumnShifts(exact, nm, ss, nd, k, j)| + d < |ColumnShifts(exact, nm, ss, nd, k, i)|
    ensures ColumnShifts(exact, nm, ss, nd, k, i)[|ColumnShifts(exact, nm, ss, nd, k, j)| + d] == ColumnBound(exact, nm, ss[j], d, k)
  {
    ColumnShiftsRowAt(exact, nm, ss, nd, k, j, d);
    ColumnShiftsPrefix(exact, nm, ss, nd, k, j + 1, i, |ColumnShifts(exact, nm, ss, nd, k, j)| + d);
  }

  lemma {:induction false} ColumnShiftsLength(exact: bool, nm: nat, ss: seq<nat>, nd: nat, k: int, i: nat)
    requires i <= |ss|
    ensures |ColumnShifts(exact, nm, ss, nd, k, i)| == i * nd
  {
    if i > 0 {
      ColumnShiftsLength(exact, nm, ss, nd, k, i - 1);
      assert (i - 1) * nd + nd == i * nd;
    }
  }

  /**
   * Coverage adds exactly one constraint per (shift, day): `|shifts| * days`
   * of them, the one for shift `s` and day `d` at position `s * days + d`,
   * bounding the sum over all members, the placeholder included, by `k`.
   */
  lemma CoverageOnePerSlot(sp: Space, k: int, s: nat, d: nat)
    requires s < |sp.shifts| && d < sp.days
    ensures |CoverageConstraints(sp, k)| == |sp.shifts| * sp.days
    ensures CoverageConstraints(sp, k)[s * sp.days + d] == AtMost(Column(|sp.members|, s, d), k)
  {
    var ss := Range(|sp.shifts|);
    ColumnShiftsAt(false, |sp.members|, ss, sp.days, k, |sp.shifts|, s, d);
    ColumnShiftsLength(false, |sp.members|, ss, sp.days, k, s);
    ColumnShiftsLength(false, |sp.members|, ss, sp.days, k, |sp.shifts|);
  }

  /** A valuation meets coverage iff no (shift, day) has more than `k` members, placeholder included. */
  lemma CoverageSemantics(sp: Space, k: int, v: Valuation)
    ensures Satisfies(v, CoverageConstraints(sp, k))
        <==> forall s: nat, d: nat :: s < |sp.shifts| && d < sp.days ==> Count(v, Column(|sp.members|, s, d)) <= k
  {
    ColumnShiftsSemantics(false, |sp.members|, Range(|sp.shifts|), sp.days, k, v);
    var ss := Range(|sp.shifts|);
    assert forall j: nat, d: nat :: j < |ss| && d < sp.days ==> ColumnBound(false, |sp.members|, ss[j], d, k) == AtMost(Column(|sp.members|, j, d), k);
  }

  // ---------------------------------------------------------------------
  // Monthly cap (app.py `_add_max_shifts_per_month_constraint`)

  /** `x[m, s, d] for s in range(ns) for d in range(nd)`: member `m`'s whole month. */
  function MonthTerms(m: nat, ns: nat, nd: nat): seq<Var> {
    Block(m, Range(ns), 0, nd)
  }

  function CapRows(ns: nat, nd: nat, k: int, m: nat): seq<Constraint> {
    if m == 0 then [] else CapRows(ns, nd, k, m - 1) + [AtMost(MonthTerms(m - 1, ns, nd), k)]
  }

  /** Everything `_add_max_shifts_per_month_constraint` adds, for cap `k`. */
  function MonthlyCapConstraints(sp: Space, k: int): seq<Constraint> {
    CapRows(|sp.shifts|, sp.days, k, |sp.members|)
  }

  lemma {:induction false} CapRowsAt(ns: nat, nd: nat, k: int, m: nat)
    ensures |CapRows(ns, nd, k, m)| == m
    ensures forall i :: 0 <= i < m ==> CapRows(ns, nd, k, m)[i] == AtMost(MonthTerms(i, ns, nd), k)
  {
    if m > 0 {
      CapRowsAt(ns, nd, k, m - 1);
    }
  }

  /**
   * The cap adds exactly one constraint per member, the placeholder
   * included: the `i`-th bounds member `i`'s total over every shift and day.
   */
  lemma MonthlyCapOnePerMember(sp: Space, k: int)
    ensures |MonthlyCapConstraints(sp, k)| == |sp.members|
    ensures forall i :: 0 <= i < |sp.members| ==>
      MonthlyCapConstraints(sp, k)[i] == AtMost(MonthTerms(i, |sp.shifts|, sp.days), k)
  {
    CapRowsAt(|sp.shifts|, sp.days, k, |sp.members|);
  }

  /** A valuation meets the cap iff no member, the placeholder included, works more than `k` slots. */
  lemma MonthlyCapSemantics(sp: Space, k: int, v: Valuation)
    ensures Satisfies(v, MonthlyCapConstraints(sp, k))
        <==> forall i :: 0 <= i < |sp.members| ==> Count(v, MonthTerms(i, |sp.shifts|, sp.days)) <= k
  {
    MonthlyCapOnePerMember(sp, k);
    var cs := MonthlyCapConstraints(sp, k);
    if Satisfies(v, cs) {
      forall i | 0 <= i < |sp.members| ensures Count(v, MonthTerms(i, |sp.shifts|, sp.days)) <= k {
        assert cs[i] in cs;
      }
    }
    if forall i :: 0 <= i < |sp.members| ==> Count(v, MonthTerms(i, |sp.shifts|, sp.days)) <= k {
      forall c | c in cs ensures Holds(v, c) {
        var i :| 0 <= i < |cs| && cs[i] == c;
      }
    }
  }

  // ---------------------------------------------------------------------
  // Sliding-window run limits (app.py `_add_max_consecutive_shifts_constraint`
  // and the window loop of `_add_ai_consecutive_shift_restriction`)

  /** `len(range(nd - k))`: the number of window starts. */
  function WindowCount(nd: nat, k: int): nat {
    if nd - k > 0 then nd - k else 0
  }

  /** `len(range(k + 1))`: the number of days in one window. */
  function WindowLen(k: int): nat {
    if k + 1 > 0 then k + 1 else 0
  }

  /** The window of member `m` over shifts `ss` starting on day `d`, bounded by `k`. */
  function Window(m: nat, ss: seq<nat>, k: int, d: nat): Constraint {
    AtMost(Block(m, ss, d, WindowLen(k)), k)
  }

  function RunDays(m: nat, ss: seq<nat>, k: int, d: nat): (r: seq<Constraint>)
    ensures |r| == d
    ensures forall d' :: 0 <= d' < d ==> r[d'] == Window(m, ss, k, d')
  {
    if d == 0 then [] else RunDays(m, ss, k, d - 1) + [Window(m, ss, k, d - 1)]
  }

  /** Every window of the first `m` members over shifts `ss`. */
  function RunRows(ss: seq<nat>, nd: nat, k: int, m: nat): seq<Constraint> {
    if m == 0 then [] else RunRows(ss, nd, k, m - 1) + RunDays(m - 1, ss, k, WindowCount(nd, k))
  }

  /** Everything `_add_max_consecutive_shifts_constraint` adds, for run limit `k`. */
  function RunLimitConstraints(sp: Space, k: int): seq<Constraint> {
    RunRows(Range(|sp.shifts|), sp.days, k, |sp.members|)
  }

  lemma {:induction false} RunRowsMember(ss: seq<nat>, nd: nat, k: int, m: nat, c: Constraint)
    ensures c in RunRows(ss, nd, k, m)
        <==> exists i: nat, d: nat :: i < m && d < WindowCount(nd, k) && c == Window(i, ss, k, d)
  {
    if m > 0 {
      RunRowsMember(ss, nd, k, m - 1, c);
      var row := RunDays(m - 1, ss, k, WindowCount(nd, k));
      if c in row {
        var d :| 0 <= d < |row| && row[d] == c;
        assert m - 1 < m && c == Window(m - 1, ss, k, d);
      }
      if exists i: nat, d: nat :: i < m && d < WindowCount(nd, k) && c == Window(i, ss, k, d) {
        var i: nat, d: nat :| i < m && d < WindowCount(nd, k) && c == Window(i, ss, k, d);
        if i == m - 1 {
          assert row[d] == c;
        }
      }
    }
  }

  lemma {:induction false} RunRowsLength(ss: seq<nat>, nd: nat, k: int, m: nat)
    ensures |RunRows(ss, nd, k, m)| == m * WindowCount(nd, k)
  {
    if m > 0 {
      RunRowsLength(ss, nd, k, m - 1);
      assert (m - 1) * WindowCount(nd, k) + WindowCount(nd, k) == m * WindowCount(nd, k);
    }
  }

  /**
   * A valuation meets the windows iff, for each of the first `m` members and
   * each start day `d < nd - k`, the member's assignments over `ss` on days
   * `d..d+k` number at most `k` (`Window` is that bound).
   */
  lemma RunRowsSemantics(ss: seq<nat>, nd: nat, k: int, m: nat, v: Valuation)
    ensures Satisfies(v, RunRows(ss, nd, k, m))
        <==> forall i: nat, d: nat :: i < m && d < WindowCount(nd, k) ==> Holds(v, Window(i, ss, k, d))
  {
    var cs := RunRows(ss, nd, k, m);
    if Satisfies(v, cs) {
      forall i: nat, d: nat | i < m && d < WindowCount(nd, k) ensures Holds(v, Window(i, ss, k, d)) {
        RunRowsMember(ss, nd, k, m, Window(i, ss, k, d));
      }
    }
    if forall i: nat, d: nat :: i < m && d < WindowCount(nd, k) ==> Holds(v, Window(i, ss, k, d)) {
      forall c | c in cs ensures Holds(v, c) {
        RunRowsMember(ss, nd, k, m, c);
      }
    }
  }

  /**
   * The run limit adds `members * (days - k)` windows, one per member (the
   * placeholder included) and start day, and none at all once `k >= days`.
   */
  lemma RunLimitCount(sp: Space, k: int)
    ensures |RunLimitConstraints(sp, k)| == |sp.members| * WindowCount(sp.days, k)
    ensures k >= sp.days ==> RunLimitConstraints(sp, k) == []
  {
    RunRowsLength(Range(|sp.shifts|), sp.days, k, |sp.members|);
  }
}
