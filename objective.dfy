/**
 * The objective the roster model maximises (`_add_multi_objective` and its
 * helpers), evaluated under a valuation: the total number of assignments,
 * the priority bonus, the placeholder's slots, the pairwise workload
 * penalty and the shift-type term.
 */
module Objective {
  import opened Wrappers
  import opened Text
  import opened Roster
  import opened Builders

  // ---------------------------------------------------------------------
  // Totals under a valuation

  /** Member `m`'s number of assignments over the month. */
  function MemberTotal(v: Valuation, m: nat, ns: nat, nd: nat): nat {
    Count(v, MonthTerms(m, ns, nd))
  }

  /** The assignments of the first `n` members together. */
  function MembersTotal(v: Valuation, n: nat, ns: nat, nd: nat): nat {
    if n == 0 then 0 else MembersTotal(v, n - 1, ns, nd) + MemberTotal(v, n - 1, ns, nd)
  }

  /** The number of real members: all but the trailing placeholder. */
  function RealCount(sp: Space): nat {
    if |sp.members| == 0 then 0 else |sp.members| - 1
  }

  /** `member_totals`: one total per real member, in order. */
  function RealTotals(sp: Space, v: Valuation): (r: seq<nat>)
    ensures |r| == RealCount(sp)
    ensures forall i :: 0 <= i < |r| ==> r[i] == MemberTotal(v, i, |sp.shifts|, sp.days)
  {
    seq(RealCount(sp), i requires 0 <= i < RealCount(sp) => MemberTotal(v, i, |sp.shifts|, sp.days))
  }

  // ---------------------------------------------------------------------
  // Workload penalty (app.py `_calculate_workload_variance`)

  function Abs(x: int): nat {
    if x < 0 then -x else x
  }

  /** One pair's share: the squared excess over 1, times 100, or twice a difference of 0 or 1. */
  function PairPenalty(a: int, b: int): (r: nat)
    ensures r == 0 <==> a == b
  {
    var diff := Abs(a - b);
    if diff > 1 then
      var excess := diff - 1;
      assert excess * excess >= excess by { MulAtLeast(excess); }
      excess * excess * 100
    else diff * 2
  }

  lemma MulAtLeast(e: nat)
    requires e >= 1
    ensures e * e >= e
  {
  }

  /** The pairs `(i, j')` for `i < j' < j`. */
  function RowPenalty(t: seq<int>, i: nat, j: nat): nat
    requires i < |t| && j <= |t|
  {
    if j <= i + 1 then 0 else RowPenalty(t, i, j - 1) + PairPenalty(t[i], t[j - 1])
  }

  /** The penalty of all pairs whose first index is below `i`. */
  function PenaltyRows(t: seq<int>, i: nat): nat
    requires i <= |t|
  {
    if i == 0 then 0 else PenaltyRows(t, i - 1) + RowPenalty(t, i - 1, |t|)
  }

  /** `variance_penalty` over the totals `t`: 0 for fewer than two of them. */
  function WorkloadPenalty(t: seq<int>): nat {
    if |t| <= 1 then 0 else PenaltyRows(t, |t|)
  }

  lemma {:induction false} RowPenaltyZero(t: seq<int>, i: nat, j: nat)
    requires i < |t| && j <= |t|
    ensures RowPenalty(t, i, j) == 0 <==> forall k :: i < k < j ==> t[k] == t[i]
  {
    if j > i + 1 {
      RowPenaltyZero(t, i, j - 1);
    }
  }

  lemma {:induction false} PenaltyRowsZero(t: seq<int>, i: nat)
    requires i <= |t|
    ensures PenaltyRows(t, i) == 0 <==> forall a, b :: 0 <= a < i && a < b < |t| ==> t[a] == t[b]
  {
    if i > 0 {
      PenaltyRowsZero(t, i - 1);
      RowPenaltyZero(t, i - 1, |t|);
    }
  }

  /** The penalty is 0 exactly when every total is the same. */
  lemma WorkloadPenaltyZero(t: seq<int>)
    ensures WorkloadPenalty(t) == 0 <==> forall a, b :: 0 <= a < |t| && 0 <= b < |t| ==> t[a] == t[b]
  {
    if |t| > 1 {
      PenaltyRowsZero(t, |t|);
      if WorkloadPenalty(t) == 0 {
        forall a, b | 0 <= a < |t| && 0 <= b < |t| ensures t[a] == t[b] {
          if a < b {
            assert t[a] == t[b];
          } else if b < a {
            assert t[b] == t[a];
          }
        }
      }
    }
  }

  /** A pair further apart is penalised more: above a gap of 1 the penalty grows with the gap. */
  lemma PairPenaltyGrows(a: int, b: int, c: int, e: int)
    requires Abs(a - b) < Abs(c - e)
    ensures PairPenalty(a, b) < PairPenalty(c, e)
  {
    var d1, d2 := Abs(a - b), Abs(c - e);
    if d1 > 1 {
      SquareGrows(d1 - 1, d2 - 1);
    } else if d2 > 1 {
      MulAtLeast(d2 - 1);
    }
  }

  lemma SquareGrows(x: nat, y: nat)
    requires x < y
    ensures x * x < y * y
  {
    assert x * x <= x * y;
    assert x * y < y * y;
  }

  /** The workload term of the objective: 0 with no real member or only one. */
  function WorkloadTerm(sp: Space, v: Valuation): nat {
    if |sp.members| <= 1 then 0 else WorkloadPenalty(RealTotals(sp, v))
  }

  // ---------------------------------------------------------------------
  // Shift-type grouping (app.py `_calculate_shift_type_variance`)

  /** The type a shift name falls in: the first keyword family it contains, else its lowercased name. */
  function ShiftType(name: string): string {
    var n := Lower(name);
    if Contains(n, "morning") || Contains(n, "day") || Contains(n, "am") then "morning"
    else if Contains(n, "afternoon") || Contains(n, "pm") then "afternoon"
    else if Contains(n, "night") || Contains(n, "evening") || Contains(n, "overnight") then "night"
    else n
  }

  /**
   * The `shift_types` dict: its keys in insertion order, and the list of
   * shift indices stored under each key.
   */
  datatype Groups = Groups(order: seq<string>, members: map<string, seq<nat>>)

  /** An insertion-ordered dict: every key listed once, and only keys listed. */
  predicate WellFormed(g: Groups) {
    (forall a, b :: 0 <= a < b < |g.order| ==> g.order[a] != g.order[b])
    && (forall t :: t in g.order ==> t in g.members)
    && (forall t :: t in g.members ==> t in g.order)
  }

  /** `if t not in shift_types: shift_types[t] = []`, then `shift_types[t].append(s)`. */
  function AddToGroup(g: Groups, t: string, s: nat): Groups {
    if t in g.members then Groups(g.order, g.members[t := g.members[t] + [s]])
    else Groups(g.order + [t], g.members[t := [s]])
  }

  /** Creating the key when it is missing and then appending is `AddToGroup`. */
  lemma InsertThenAppend(g: Groups, t: string, s: nat, order: seq<string>, groups: map<string, seq<nat>>)
    requires order == if t in g.members then g.order else g.order + [t]
    requires groups == (if t in g.members then g.members else g.members[t := []])[t := (if t in g.members then g.members[t] else []) + [s]]
    ensures Groups(order, groups) == AddToGroup(g, t, s)
  {
    if t !in g.members {
      assert [] + [s] == [s];
      assert groups == g.members[t := [s]];
    }
  }

  /** The type of each shift, in order. */
  function ShiftTypes(shifts: seq<Shift>): (r: seq<string>)
    ensures |r| == |shifts|
    ensures forall i :: 0 <= i < |shifts| ==> r[i] == ShiftType(shifts[i].name)
  {
    seq(|shifts|, i requires 0 <= i < |shifts| => ShiftType(shifts[i].name))
  }

  /** The dict after the loop has seen the first `i` shifts, whose types are `types`. */
  function GroupsOf(types: seq<string>, i: nat): Groups
    requires i <= |types|
  {
    if i == 0 then Groups([], map[])
    else AddToGroup(GroupsOf(types, i - 1), types[i - 1], i - 1)
  }

  /** The indices, in order, of the first `i` shifts whose type is `t`. */
  function IndicesOf(types: seq<string>, t: string, i: nat): seq<nat>
    requires i <= |types|
  {
    if i == 0 then [] else IndicesOf(types, t, i - 1) + (if types[i - 1] == t then [i - 1] else [])
  }

  lemma {:induction false} IndicesOfMember(types: seq<string>, t: string, i: nat)
    requires i <= |types|
    ensures forall s :: s in IndicesOf(types, t, i) <==> 0 <= s < i && types[s] == t
  {
    if i > 0 {
      IndicesOfMember(types, t, i - 1);
    }
  }

  lemma {:induction false} IndicesOfNone(types: seq<string>, t: string, i: nat)
    requires i <= |types|
    requires forall s :: 0 <= s < i ==> types[s] != t
    ensures IndicesOf(types, t, i) == []
  {
    if i > 0 {
      IndicesOfNone(types, t, i - 1);
    }
  }

  /**
   * The grouping is a partition: every one of the first `i` shifts has its
   * type as a key, and each key holds exactly the indices of the shifts of
   * that type, in order.
   */
  lemma {:induction false} GroupsPartition(types: seq<string>, i: nat)
    requires i <= |types|
    ensures forall s :: 0 <= s < i ==> types[s] in GroupsOf(types, i).members
    ensures forall t :: t in GroupsOf(types, i).members ==> GroupsOf(types, i).members[t] == IndicesOf(types, t, i)
  {
    if i > 0 {
      GroupsPartition(types, i - 1);
      var g := GroupsOf(types, i - 1);
      var t := types[i - 1];
      var g' := AddToGroup(g, t, i - 1);
      assert GroupsOf(types, i) == g';
      forall s | 0 <= s < i ensures types[s] in g'.members {
        if s < i - 1 {
          assert types[s] in g.members;
        }
      }
      forall u | u in g'.members ensures g'.members[u] == IndicesOf(types, u, i) {
        if u in g.members {
          assert g.members[u] == IndicesOf(types, u, i - 1);
          if u == t {
            assert g'.members[u] == g.members[u] + [i - 1];
          } else {
            assert g'.members[u] == g.members[u];
            assert IndicesOf(types, u, i) == IndicesOf(types, u, i - 1) + [];
          }
        } else {
          assert u == t && g'.members[u] == [i - 1];
          forall s | 0 <= s < i - 1 ensures types[s] != u {
            assert types[s] in g.members;
          }
          IndicesOfNone(types, u, i - 1);
          assert IndicesOf(types, u, i) == [] + [i - 1];
        }
      }
    }
  }

  /** Adding to the dict keeps every key listed once. */
  lemma AddToGroupWellFormed(g: Groups, t: string, s: nat)
    requires WellFormed(g)
    ensures WellFormed(AddToGroup(g, t, s))
  {
    if t !in g.members {
      assert t !in g.order;
      var o := g.order + [t];
      forall a, b | 0 <= a < b < |o| ensures o[a] != o[b] {
        if b == |o| - 1 {
          assert o[a] == g.order[a];
          assert g.order[a] in g.order;
        }
      }
    }
  }

  lemma {:induction false} GroupsWellFormed(types: seq<string>, i: nat)
    requires i <= |types|
    ensures WellFormed(GroupsOf(types, i))
  {
    if i > 0 {
      GroupsWellFormed(types, i - 1);
      AddToGroupWellFormed(GroupsOf(types, i - 1), types[i - 1], i - 1);
    }
  }

  // Sums used to restate the shift-type term.

  /** Member `m`'s assignments over the shifts `ss`. */
  function MemberGroupTotal(v: Valuation, m: nat, ss: seq<nat>, nd: nat): nat {
    Count(v, Block(m, ss, 0, nd))
  }

  /** The assignments of the first `n` members over the shifts `ss`. */
  function GroupTotal(v: Valuation, n: nat, ss: seq<nat>, nd: nat): nat {
    if n == 0 then 0 else GroupTotal(v, n - 1, ss, nd) + MemberGroupTotal(v, n - 1, ss, nd)
  }

  /** `total_shift_assignments` over the keys `order` of `gs`. */
  function TypesTotal(v: Valuation, n: nat, order: seq<string>, gs: map<string, seq<nat>>, nd: nat): nat
    requires forall t :: t in order ==> t in gs
  {
    if order == [] then 0
    else TypesTotal(v, n, order[..|order| - 1], gs, nd) + GroupTotal(v, n, gs[order[|order| - 1]], nd)
  }

  /** Member `m`'s assignments summed group by group. */
  function MemberTypes(v: Valuation, m: nat, order: seq<string>, gs: map<string, seq<nat>>, nd: nat): nat
    requires forall t :: t in order ==> t in gs
  {
    if order == [] then 0
    else MemberTypes(v, m, order[..|order| - 1], gs, nd) + MemberGroupTotal(v, m, gs[order[|order| - 1]], nd)
  }

  function MembersTypes(v: Valuation, n: nat, order: seq<string>, gs: map<string, seq<nat>>, nd: nat): nat
    requires forall t :: t in order ==> t in gs
  {
    if n == 0 then 0 else MembersTypes(v, n - 1, order, gs, nd) + MemberTypes(v, n - 1, order, gs, nd)
  }

  lemma {:induction false} GroupTotalSplit(v: Valuation, n: nat, order: seq<string>, gs: map<string, seq<nat>>, nd: nat, t: string)
    requires forall u :: u in order ==> u in gs
    requires t in gs
    ensures MembersTypes(v, n, order + [t], gs, nd) == MembersTypes(v, n, order, gs, nd) + GroupTotal(v, n, gs[t], nd)
  {
    if n > 0 {
      GroupTotalSplit(v, n - 1, order, gs, nd, t);
      assert (order + [t])[..|order + [t]| - 1] == order;
    }
  }

  /** Summing type by type, then member by member, equals summing member by member, then type by type. */
  lemma {:induction false} TypesTotalSwap(v: Valuation, n: nat, order: seq<string>, gs: map<string, seq<nat>>, nd: nat)
    requires forall t :: t in order ==> t in gs
    ensures TypesTotal(v, n, order, gs, nd) == MembersTypes(v, n, order, gs, nd)
  {
    if order == [] {
      MembersTypesEmpty(v, n, gs, nd);
    } else {
      var pre := order[..|order| - 1];
      var t := order[|order| - 1];
      assert order == pre + [t];
      TypesTotalSwap(v, n, pre, gs, nd);
      GroupTotalSplit(v, n, pre, gs, nd, t);
    }
  }

  lemma {:induction false} MembersTypesEmpty(v: Valuation, n: nat, gs: map<string, seq<nat>>, nd: nat)
    ensures MembersTypes(v, n, [], gs, nd) == 0
  {
    if n > 0 {
      MembersTypesEmpty(v, n - 1, gs, nd);
    }
  }

  /** Keys other than `t` keep their lists, so a sum over keys without `t` is unchanged. */
  lemma {:induction false} MemberTypesFrame(v: Valuation, m: nat, order: seq<string>, gs: map<string, seq<nat>>, gs': map<string, seq<nat>>, nd: nat)
    requires forall t :: t in order ==> t in gs && t in gs' && gs[t] == gs'[t]
    ensures MemberTypes(v, m, order, gs, nd) == MemberTypes(v, m, order, gs', nd)
  {
    if order != [] {
      MemberTypesFrame(v, m, order[..|order| - 1], gs, gs', nd);
    }
  }

  /** Appending `s` to the list of key `t`, listed once in `order`, adds `s`'s share once. */
  lemma {:induction false} MemberTypesAppend(v: Valuation, m: nat, order: seq<string>, gs: map<string, seq<nat>>, nd: nat, t: string, s: nat)
    requires forall u :: u in order ==> u in gs
    requires forall a, b :: 0 <= a < b < |order| ==> order[a] != order[b]
    requires t in order && t in gs
    ensures MemberTypes(v, m, order, gs[t := gs[t] + [s]], nd) == MemberTypes(v, m, order, gs, nd) + MemberGroupTotal(v, m, [s], nd)
  {
    var gs' := gs[t := gs[t] + [s]];
    var pre := order[..|order| - 1];
    var last := order[|order| - 1];
    BlockConcat(m, gs[t], [s], 0, nd);
    CountConcat(v, Block(m, gs[t], 0, nd), Block(m, [s], 0, nd));
    if last == t {
      MemberTypesFrame(v, m, pre, gs, gs', nd);
    } else {
      assert t in pre by {
        var a :| 0 <= a < |order| && order[a] == t;
        assert a < |order| - 1;
        assert pre[a] == t;
      }
      MemberTypesAppend(v, m, pre, gs, nd, t, s);
    }
  }

  /** Adding shift `s` to the dict adds `s`'s share to member `m`'s group-by-group sum. */
  lemma MemberTypesStep(v: Valuation, m: nat, g: Groups, t: string, s: nat, nd: nat)
    requires WellFormed(g)
    ensures forall u :: u in AddToGroup(g, t, s).order ==> u in AddToGroup(g, t, s).members
    ensures MemberTypes(v, m, AddToGroup(g, t, s).order, AddToGroup(g, t, s).members, nd)
      == MemberTypes(v, m, g.order, g.members, nd) + MemberGroupTotal(v, m, [s], nd)
  {
    if t in g.members {
      MemberTypesAppend(v, m, g.order, g.members, nd, t, s);
    } else {
      var gs' := g.members[t := [s]];
      var o := g.order + [t];
      assert o[..|o| - 1] == g.order;
      MemberTypesFrame(v, m, g.order, g.members, gs', nd);
    }
  }

  /** Grouping one shift more adds that shift's days to member `m`'s group-by-group sum. */
  lemma MemberTypesSnoc(v: Valuation, m: nat, types: seq<string>, s: nat, nd: nat)
    requires s < |types|
    ensures WellFormed(GroupsOf(types, s)) && WellFormed(GroupsOf(types, s + 1))
    ensures MemberTypes(v, m, GroupsOf(types, s + 1).order, GroupsOf(types, s + 1).members, nd)
      == MemberTypes(v, m, GroupsOf(types, s).order, GroupsOf(types, s).members, nd) + Count(v, DaySpan(m, s, 0, nd))
  {
    GroupsWellFormed(types, s + 1);
    GroupsWellFormed(types, s);
    var g := GroupsOf(types, s);
    assert GroupsOf(types, s + 1) == AddToGroup(g, types[s], s);
    MemberTypesStep(v, m, g, types[s], s, nd);
    assert Block(m, [s], 0, nd) == DaySpan(m, s, 0, nd);
  }

  /** Member `m`'s assignments over the first `i` shifts, summed group by group, equal its plain total. */
  lemma {:induction false} MemberTypesIsTotal(v: Valuation, m: nat, types: seq<string>, i: nat, nd: nat)
    requires i <= |types|
    ensures WellFormed(GroupsOf(types, i))
    ensures MemberTypes(v, m, GroupsOf(types, i).order, GroupsOf(types, i).members, nd) == Count(v, Block(m, Range(i), 0, nd))
  {
    GroupsWellFormed(types, i);
    if i == 0 {
      assert Range(0) == [];
    } else {
      var s := i - 1;
      var g, g' := GroupsOf(types, s), GroupsOf(types, i);
      var c := Count(v, DaySpan(m, s, 0, nd));
      GroupsWellFormed(types, s);
      assert Count(v, Block(m, Range(i), 0, nd)) == Count(v, Block(m, Range(s), 0, nd)) + c by {
        CountBlockRangeSnoc(v, m, s, nd);
      }
      assert MemberTypes(v, m, g'.order, g'.members, nd) == MemberTypes(v, m, g.order, g.members, nd) + c by {
        MemberTypesSnoc(v, m, types, s, nd);
      }
      assert MemberTypes(v, m, g.order, g.members, nd) == Count(v, Block(m, Range(s), 0, nd)) by {
        MemberTypesIsTotal(v, m, types, s, nd);
      }
    }
  }

  lemma {:induction false} MembersTypesIsTotal(v: Valuation, n: nat, types: seq<string>, nd: nat)
    ensures WellFormed(GroupsOf(types, |types|))
    ensures MembersTypes(v, n, GroupsOf(types, |types|).order, GroupsOf(types, |types|).members, nd)
      == MembersTotal(v, n, |types|, nd)
  {
    GroupsWellFormed(types, |types|);
    if n > 0 {
      MembersTypesIsTotal(v, n - 1, types, nd);
      MemberTypesIsTotal(v, n - 1, types, |types|, nd);
    }
  }

  /** The shift-type term, 0 with at most one member (placeholder included) or at most one shift. */
  function ShiftTypeTerm(sp: Space, v: Valuation): nat {
    if |sp.members| <= 1 || |sp.shifts| <= 1 then 0
    else
      var g := GroupsOf(ShiftTypes(sp.shifts), |sp.shifts|);
      GroupsWellFormed(ShiftTypes(sp.shifts), |sp.shifts|);
      TypesTotal(v, RealCount(sp), g.order, g.members, sp.days)
  }

  /** The shift-type term sums the groups in the order their keys were first inserted. */
  lemma ShiftTypeTermByGroups(sp: Space, v: Valuation, g: Groups)
    requires |sp.members| > 1 && |sp.shifts| > 1
    requires g == GroupsOf(ShiftTypes(sp.shifts), |sp.shifts|)
    ensures forall t :: t in g.order ==> t in g.members
    ensures ShiftTypeTerm(sp, v) == TypesTotal(v, |sp.members| - 1, g.order, g.members, sp.days)
  {
    GroupsWellFormed(ShiftTypes(sp.shifts), |sp.shifts|);
    assert RealCount(sp) == |sp.members| - 1;
  }

  /**
   * Since every shift falls in exactly one group, the shift-type term is the
   * total of the real members' assignments (or 0 in the degenerate cases).
   */
  lemma ShiftTypeTermIsRealTotal(sp: Space, v: Valuation)
    ensures ShiftTypeTerm(sp, v) ==
      if |sp.members| <= 1 || |sp.shifts| <= 1 then 0 else MembersTotal(v, RealCount(sp), |sp.shifts|, sp.days)
  {
    if !(|sp.members| <= 1 || |sp.shifts| <= 1) {
      var types := ShiftTypes(sp.shifts);
      var g := GroupsOf(types, |types|);
      GroupsWellFormed(types, |types|);
      TypesTotalSwap(v, RealCount(sp), g.order, g.members, sp.days);
      MembersTypesIsTotal(v, RealCount(sp), types, sp.days);
    }
  }

  // ---------------------------------------------------------------------
  // Priority bonus (app.py `_is_priority_assignment`)

  /** The first entry matching the slot's member, shift and date says `priority`. */
  predicate IsPriorityAssignment(sp: Space, av: seq<AvailabilityEntry>, m: nat, s: nat, d: nat) {
    m < |sp.members| && s < |sp.shifts|
    && var e := FirstMatch(av, sp.members[m].id, sp.shifts[s].id, DateOf(sp, d));
       e.Some? && e.value.status == "priority"
  }

  /** A slot never earns the bonus and is forced to 0 at once, since one first entry decides both. */
  lemma PriorityExcludesUnavailable(sp: Space, av: seq<AvailabilityEntry>, m: nat, s: nat, d: nat)
    ensures !(IsPriorityAssignment(sp, av, m, s, d) && MarkedUnavailable(sp, av, m, s, d))
  {
  }

  function PriorityCell(sp: Space, av: seq<AvailabilityEntry>, v: Valuation, m: nat, s: nat, d: nat): nat {
    if IsPriorityAssignment(sp, av, m, s, d) && v(Var(m, s, d)) then 1 else 0
  }

  function PriorityDays(sp: Space, av: seq<AvailabilityEntry>, v: Valuation, m: nat, s: nat, d: nat): nat {
    if d == 0 then 0 else PriorityDays(sp, av, v, m, s, d - 1) + PriorityCell(sp, av, v, m, s, d - 1)
  }

  function PriorityShifts(sp: Space, av: seq<AvailabilityEntry>, v: Valuation, m: nat, s: nat): nat {
    if s == 0 then 0 else PriorityShifts(sp, av, v, m, s - 1) + PriorityDays(sp, av, v, m, s - 1, sp.days)
  }

  function PriorityRows(sp: Space, av: seq<AvailabilityEntry>, v: Valuation, m: nat): nat {
    if m == 0 then 0 else PriorityRows(sp, av, v, m - 1) + PriorityShifts(sp, av, v, m - 1, |sp.shifts|)
  }

  /** `priority_bonus`: the real members' assignments to priority slots. */
  function PriorityBonus(sp: Space, av: seq<AvailabilityEntry>, v: Valuation): nat {
    PriorityRows(sp, av, v, RealCount(sp))
  }

  lemma {:induction false} PriorityDaysBound(sp: Space, av: seq<AvailabilityEntry>, v: Valuation, m: nat, s: nat, d: nat)
    ensures PriorityDays(sp, av, v, m, s, d) <= Count(v, DaySpan(m, s, 0, d))
  {
    if d > 0 {
      PriorityDaysBound(sp, av, v, m, s, d - 1);
      assert DaySpan(m, s, 0, d) == DaySpan(m, s, 0, d - 1) + [Var(m, s, d - 1)];
      CountConcat(v, DaySpan(m, s, 0, d - 1), [Var(m, s, d - 1)]);
    }
  }

  lemma {:induction false} PriorityShiftsBound(sp: Space, av: seq<AvailabilityEntry>, v: Valuation, m: nat, s: nat)
    ensures PriorityShifts(sp, av, v, m, s) <= Count(v, Block(m, Range(s), 0, sp.days))
  {
    if s == 0 {
      assert Range(0) == [];
    } else {
      PriorityShiftsBound(sp, av, v, m, s - 1);
      PriorityDaysBound(sp, av, v, m, s - 1, sp.days);
      assert Range(s) == Range(s - 1) + [s - 1];
      BlockConcat(m, Range(s - 1), [s - 1], 0, sp.days);
      CountConcat(v, Block(m, Range(s - 1), 0, sp.days), Block(m, [s - 1], 0, sp.days));
      assert Block(m, [s - 1], 0, sp.days) == DaySpan(m, s - 1, 0, sp.days) + Block(m, [], 0, sp.days);
      assert DaySpan(m, s - 1, 0, sp.days) + [] == DaySpan(m, s - 1, 0, sp.days);
    }
  }

  /** The bonus never exceeds the real members' total. */
  lemma {:induction false} PriorityBonusBound(sp: Space, av: seq<AvailabilityEntry>, v: Valuation, n: nat)
    ensures PriorityRows(sp, av, v, n) <= MembersTotal(v, n, |sp.shifts|, sp.days)
  {
    if n > 0 {
      PriorityBonusBound(sp, av, v, n - 1);
      PriorityShiftsBound(sp, av, v, n - 1, |sp.shifts|);
    }
  }

  // ---------------------------------------------------------------------
  // The weighted objective (app.py `_add_multi_objective`)

  /** The placeholder's slots, `unassigned_penalty`. */
  function UnassignedSlots(sp: Space, v: Valuation): nat {
    if |sp.members| == 0 then 0 else MemberTotal(v, |sp.members| - 1, |sp.shifts|, sp.days)
  }

  /** The expression the model maximises, evaluated under `v`. */
  function ObjectiveValue(sp: Space, av: seq<AvailabilityEntry>, v: Valuation): int {
    MembersTotal(v, |sp.members|, |sp.shifts|, sp.days) * 1000
    + PriorityBonus(sp, av, v) * 100
    - UnassignedSlots(sp, v) * 10
    - WorkloadTerm(sp, v) * 50
    - ShiftTypeTerm(sp, v) * 3
  }

  /**
   * With at least one real member and at least two shifts, the objective weighs each real
   * assignment 997, each placeholder slot 990, each priority assignment a
   * further 100 and each unit of workload penalty -50.
   */
  lemma ObjectiveDecomposition(sp: Space, av: seq<AvailabilityEntry>, v: Valuation)
    requires |sp.members| > 1 && |sp.shifts| > 1
    ensures ObjectiveValue(sp, av, v) ==
      997 * MembersTotal(v, RealCount(sp), |sp.shifts|, sp.days) + 990 * UnassignedSlots(sp, v)
      + 100 * PriorityBonus(sp, av, v) - 50 * WorkloadTerm(sp, v)
  {
    ShiftTypeTermIsRealTotal(sp, v);
  }
}
