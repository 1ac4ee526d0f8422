/**
 * The entities of a roster request and the decision-variable space the
 * solver works on: one boolean `x[m, s, d]` per member (the placeholder
 * included), shift and day, and the linear constraints over those variables
 * that the builders hand to the solver.
 */
module Roster {

  datatype Member = Member(id: string, name: string)

  /** A shift; its optional start and end times play no part in the core. */
  datatype Shift = Shift(id: string, name: string)

  /** One availability record; `status` is kept as the string the request carries. */
  datatype AvailabilityEntry = AvailabilityEntry(userId: string, shiftId: string, date: string, status: string)

  const PlaceholderId: string := "unassigned"

  /** The synthetic member appended to every request to absorb unfilled slots. */
  const Placeholder: Member := Member(PlaceholderId, "Unassigned")

  /** The core recognises the placeholder by its id, so any member with that id counts as one. */
  predicate IsPlaceholder(mem: Member) {
    mem.id == PlaceholderId
  }

  /** The key `(m, s, d)` of one decision variable. */
  datatype Var = Var(m: nat, s: nat, d: nat)

  /** The variable space of a model with `nm` members, `ns` shifts and `nd` days. */
  predicate InSpace(x: Var, nm: nat, ns: nat, nd: nat) {
    x.m < nm && x.s < ns && x.d < nd
  }

  /** What the solver reports for each variable (true is 1). */
  type Valuation = Var -> bool

  /**
   * A constraint of the model: a sum of variables (each with coefficient 1)
   * bounded above or fixed, or a single variable forced to 0.
   */
  datatype Constraint =
    | AtMost(terms: seq<Var>, bound: int)
    | Exactly(terms: seq<Var>, bound: int)
    | Zero(x: Var)

  /** The variables a constraint mentions. */
  function VarsOf(c: Constraint): seq<Var> {
    match c
    case AtMost(ts, _) => ts
    case Exactly(ts, _) => ts
    case Zero(x) => [x]
  }

  /** The value of the sum of `terms` under `v`. */
  function Count(v: Valuation, terms: seq<Var>): (r: nat)
    ensures r <= |terms|
  {
    if terms == [] then 0 else (if v(terms[0]) then 1 else 0) + Count(v, terms[1..])
  }

  lemma {:induction false} CountConcat(v: Valuation, a: seq<Var>, b: seq<Var>)
    ensures Count(v, a + b) == Count(v, a) + Count(v, b)
  {
    if a == [] {
      assert a + b == b;
    } else {
      assert (a + b)[1..] == a[1..] + b;
      CountConcat(v, a[1..], b);
    }
  }

  lemma CountSingle(v: Valuation, x: Var)
    ensures Count(v, [x]) == if v(x) then 1 else 0
  {
    assert [x][1..] == [];
  }

  predicate Holds(v: Valuation, c: Constraint) {
    match c
    case AtMost(ts, k) => Count(v, ts) <= k
    case Exactly(ts, k) => Count(v, ts) == k
    case Zero(x) => !v(x)
  }

  /** `v` meets every constraint of `cs`. */
  predicate Satisfies(v: Valuation, cs: seq<Constraint>) {
    forall c :: c in cs ==> Holds(v, c)
  }

  lemma SatisfiesConcat(v: Valuation, a: seq<Constraint>, b: seq<Constraint>)
    ensures Satisfies(v, a + b) <==> Satisfies(v, a) && Satisfies(v, b)
  {
  }

  /** Appending a list after a concatenation is appending to its second half. */
  lemma ConcatAssoc<T>(a: seq<T>, b: seq<T>, c: seq<T>)
    ensures a + b + c == a + (b + c)
  {
  }

  /** The lists of `parts` one after the other. */
  function Flatten(parts: seq<seq<Constraint>>): seq<Constraint> {
    if parts == [] then [] else Flatten(parts[..|parts| - 1]) + parts[|parts| - 1]
  }

  lemma FlattenSnoc(parts: seq<seq<Constraint>>, p: seq<Constraint>)
    ensures Flatten(parts + [p]) == Flatten(parts) + p
  {
    assert (parts + [p])[..|parts|] == parts;
  }

  /** Appending part `i` to a flattened prefix flattens one part more. */
  lemma FlattenPrefixStep(parts: seq<seq<Constraint>>, i: nat, base: seq<Constraint>, before: seq<Constraint>, after: seq<Constraint>)
    requires i < |parts|
    requires before == base + Flatten(parts[..i])
    requires after == before + parts[i]
    ensures after == base + Flatten(parts[..i + 1])
  {
    assert parts[..i + 1] == parts[..i] + [parts[i]];
    FlattenSnoc(parts[..i], parts[i]);
    ConcatAssoc(base, Flatten(parts[..i]), parts[i]);
  }

  /** A valuation meets the concatenation iff it meets every part. */
  lemma {:induction false} FlattenSemantics(v: Valuation, parts: seq<seq<Constraint>>)
    ensures Satisfies(v, Flatten(parts)) <==> forall j :: 0 <= j < |parts| ==> Satisfies(v, parts[j])
  {
    if parts != [] {
      var pre, last := parts[..|parts| - 1], parts[|parts| - 1];
      FlattenSemantics(v, pre);
      SatisfiesConcat(v, Flatten(pre), last);
      assert forall j :: 0 <= j < |pre| ==> pre[j] == parts[j];
    }
  }

  /** `range(n)` as a list of shift indices. */
  function Range(n: nat): (r: seq<nat>)
    ensures |r| == n && forall i :: 0 <= i < n ==> r[i] == i
  {
    seq(n, i => i)
  }

  /** `x[m, s, d0 + i] for i in range(len)`. */
  function DaySpan(m: nat, s: nat, d0: nat, len: nat): (r: seq<Var>)
    ensures |r| == len
  {
    seq(len, i requires 0 <= i < len => Var(m, s, d0 + i))
  }

  /**
   * `x[m, s, d0 + i] for s in ss for i in range(len)`: the terms of one
   * member over the listed shifts and a run of days, shift by shift.
   */
  function Block(m: nat, ss: seq<nat>, d0: nat, len: nat): (r: seq<Var>)
  {
    if ss == [] then [] else DaySpan(m, ss[0], d0, len) + Block(m, ss[1..], d0, len)
  }

  lemma {:induction false} BlockConcat(m: nat, a: seq<nat>, b: seq<nat>, d0: nat, len: nat)
    ensures Block(m, a + b, d0, len) == Block(m, a, d0, len) + Block(m, b, d0, len)
  {
    if a == [] {
      assert a + b == b;
    } else {
      assert (a + b)[1..] == a[1..] + b;
      BlockConcat(m, a[1..], b, d0, len);
    }
  }

  /** A run of days grows by one variable at its end. */
  lemma DaySpanSnoc(m: nat, s: nat, d0: nat, len: nat)
    ensures DaySpan(m, s, d0, len + 1) == DaySpan(m, s, d0, len) + [Var(m, s, d0 + len)]
  {
  }

  /** The block over one more listed shift grows by that shift's run of days. */
  lemma BlockSnoc(m: nat, ss: seq<nat>, j: nat, d0: nat, len: nat)
    requires j < |ss|
    ensures Block(m, ss[..j + 1], d0, len) == Block(m, ss[..j], d0, len) + DaySpan(m, ss[j], d0, len)
  {
    assert ss[..j + 1] == ss[..j] + [ss[j]];
    BlockConcat(m, ss[..j], [ss[j]], d0, len);
    assert Block(m, [ss[j]], d0, len) == DaySpan(m, ss[j], d0, len) + Block(m, [], d0, len);
  }

  /** Over `range(s + 1)` a member's count gains the count of shift `s`. */
  lemma CountBlockRangeSnoc(v: Valuation, m: nat, s: nat, len: nat)
    ensures Count(v, Block(m, Range(s + 1), 0, len)) == Count(v, Block(m, Range(s), 0, len)) + Count(v, DaySpan(m, s, 0, len))
  {
    var rs := Range(s + 1);
    assert rs[..s] == Range(s);
    assert rs[..s + 1] == rs;
    BlockSnoc(m, rs, s, 0, len);
    CountConcat(v, Block(m, Range(s), 0, len), DaySpan(m, s, 0, len));
  }

  /** `x[m, s, d] for m in range(nm)`: every member's variable for one slot. */
  function Column(nm: nat, s: nat, d: nat): (r: seq<Var>)
    ensures |r| == nm
    ensures forall x :: x in r <==> x.m < nm && x.s == s && x.d == d
  {
    var r := seq(nm, i requires 0 <= i < nm => Var(i, s, d));
    assert forall x: Var :: x.m < nm && x.s == s && x.d == d ==> r[x.m] == x;
    r
  }
}
