/**
 * The deterministic parts of constraint_parser.py: stripping the code fence
 * off the model's reply, normalising the four rule sections of a parsed
 * dict, the default rule set, and merging database limits into the shift
 * rules. A parsed dict is an object whose list sections are shared
 * references, so that the shallow copy of the merge is modelled as it is.
 */
module Parser {
  import opened Wrappers
  import opened Text

  /** A JSON value as `json.loads` produces it (numbers restricted to integers). */
  datatype Json =
    | JNull
    | JBool(b: bool)
    | JNum(n: int)
    | JStr(s: string)
    | JList(items: seq<Json>)
    | JObject(fields: seq<Field>)

  /** One key of a JSON object, in insertion order. */
  datatype Field = Field(key: string, value: Json)

  // ---------------------------------------------------------------------
  // Fence stripping (constraint_parser.py lines 94-100)

  const Fence: string := "```"
  const JsonFence: string := "```json"

  /**
   * The text handed to `json.loads`: the reply stripped, a leading
   * "```json" and a trailing "```" removed if present, and stripped again.
   */
  function Unfence(content: string): string {
    Trim(DropFence(DropJsonFence(Trim(content))))
  }

  /** A leading "```json" removed, if present. */
  function DropJsonFence(t: string): string {
    if StartsWith(t, JsonFence) then t[7..] else t
  }

  /** A trailing "```" removed, if present. */
  function DropFence(a: string): string {
    if EndsWith(a, Fence) then a[..|a| - 3] else a
  }

  /**
   * The three reassignments of `json_content`, followed by the final strip
   * whose result is the argument of `json.loads`.
   */
  method ExtractJsonContent(content: string) returns (jsonContent: string)
    ensures jsonContent == Unfence(content)
    ensures IsTrimmed(jsonContent)
  {
    jsonContent := Trim(content);
    ghost var t := jsonContent;
    if StartsWith(jsonContent, JsonFence) {
      jsonContent := jsonContent[7..];
    }
    assert jsonContent == DropJsonFence(t);
    ghost var a := jsonContent;
    if EndsWith(jsonContent, Fence) {
      jsonContent := jsonContent[..|jsonContent| - 3];
    }
    assert jsonContent == DropFence(a);
    assert IsTrimmed(Trim(jsonContent)) by {
      TrimIsTrimmed(jsonContent);
    }
    jsonContent := Trim(jsonContent);
  }

  lemma TrimOfTrimmed(s: string)
    requires IsTrimmed(s)
    ensures Trim(s) == s
  {
    TrimPadded([], s, []);
    assert [] + s + [] == s;
  }

  /**
   * A fenced reply gives back its body: for any trimmed body `b` and any
   * whitespace `w1`, `w2`, "```json" + w1 + b + w2 + "```" unfences to `b`.
   */
  lemma UnfenceFenced(w1: string, b: string, w2: string)
    requires AllSpace(w1) && AllSpace(w2) && IsTrimmed(b)
    ensures Unfence(JsonFence + ((w1 + b + w2) + Fence)) == b
  {
    var body := w1 + b + w2;
    var tail := body + Fence;
    var s := JsonFence + tail;
    FencedIsTrimmed(tail);
    DropJsonFencePrefix(tail);
    DropFenceSuffix(body);
    assert Trim(body) == b by {
      TrimPadded(w1, b, w2);
    }
    UnfenceChain(s, tail, body, b);
  }

  lemma UnfenceChain(s: string, tail: string, body: string, b: string)
    requires IsTrimmed(s) && DropJsonFence(s) == tail && DropFence(tail) == body && Trim(body) == b
    ensures Unfence(s) == b
  {
    TrimOfTrimmed(s);
  }

  lemma DropJsonFencePrefix(tail: string)
    ensures DropJsonFence(JsonFence + tail) == tail
  {
    var s := JsonFence + tail;
    assert s[..|JsonFence|] == JsonFence;
    assert s[|JsonFence|..] == tail;
  }

  lemma DropFenceSuffix(body: string)
    ensures DropFence(body + Fence) == body
  {
    var a := body + Fence;
    assert a[|body|..] == Fence;
    assert a[..|body|] == body;
  }

  lemma FencedIsTrimmed(tail: string)
    requires |tail| >= 3 && tail[|tail| - 1] == '`'
    ensures IsTrimmed(JsonFence + tail)
  {
    var s := JsonFence + tail;
    assert s[0] == JsonFence[0] == '`';
    assert s[|s| - 1] == tail[|tail| - 1];
  }

  /** A reply with neither fence is only stripped. */
  lemma UnfenceUnfenced(content: string)
    requires !StartsWith(Trim(content), JsonFence) && !EndsWith(Trim(content), Fence)
    ensures Unfence(content) == Trim(content)
  {
    TrimIsTrimmed(content);
    TrimOfTrimmed(Trim(content));
  }

  /** What `json.loads` is given never has whitespace at either end. */
  lemma UnfenceIsTrimmed(content: string)
    ensures IsTrimmed(Unfence(content))
  {
    TrimIsTrimmed(DropFence(DropJsonFence(Trim(content))));
  }

  // ---------------------------------------------------------------------
  // Parsed dicts

  /** A list object; several dict entries may refer to the same one. */
  class RuleList {
    var items: seq<Json>

    constructor (items0: seq<Json>)
      ensures items == items0
    {
      items := items0;
    }
  }

  /**
   * The value stored under a key of a parsed dict: a (shared) list, or a
   * value of any other type (an `OtherSection` never holds a `JList`).
   */
  datatype Section = ListSection(list: RuleList) | OtherSection(value: Json)

  /** A parsed-constraints dict. */
  class ConstraintDict {
    var sections: map<string, Section>

    constructor (sections0: map<string, Section>)
      ensures sections == sections0
    {
      sections := sections0;
    }
  }

  const RequiredSections: seq<string> := ["availability_rules", "shift_rules", "member_rules", "team_rules"]

  /** Every required section is present and holds a list. */
  predicate IsNormalised(sections: map<string, Section>) {
    forall k :: k in RequiredSections ==> k in sections && sections[k].ListSection?
  }

  /**
   * constraint_parser.py `_validate_parsed_constraints`: a missing required
   * section, or one that is not a list, is replaced by a fresh empty list.
   */
  method ValidateParsedConstraints(d: ConstraintDict)
    modifies d
    ensures IsNormalised(d.sections)
    ensures d.sections.Keys == old(d.sections.Keys) + set k | k in RequiredSections
    ensures forall k :: k in old(d.sections) && (k !in RequiredSections || old(d.sections[k]).ListSection?) ==>
      d.sections[k] == old(d.sections[k])
    ensures forall k :: k in RequiredSections && !(k in old(d.sections) && old(d.sections[k]).ListSection?) ==>
      fresh(d.sections[k].list) && d.sections[k].list.items == []
    ensures IsNormalised(old(d.sections)) ==> d.sections == old(d.sections)
  {
    for i := 0 to |RequiredSections|
      invariant forall k :: k in RequiredSections[..i] ==> k in d.sections && d.sections[k].ListSection?
      invariant d.sections.Keys == old(d.sections.Keys) + set k | k in RequiredSections[..i]
      invariant forall k :: k in old(d.sections) && (k !in RequiredSections || old(d.sections[k]).ListSection?) ==>
        d.sections[k] == old(d.sections[k])
      invariant forall k :: k in RequiredSections[..i] && !(k in old(d.sections) && old(d.sections[k]).ListSection?) ==>
        fresh(d.sections[k].list) && d.sections[k].list.items == []
      invariant forall k :: k in d.sections && k !in RequiredSections[..i] ==> k in old(d.sections) && d.sections[k] == old(d.sections[k])
    {
      var section := RequiredSections[i];
      assert RequiredSections[..i + 1] == RequiredSections[..i] + [section];
      if section !in d.sections {
        var empty := new RuleList([]);
        d.sections := d.sections[section := ListSection(empty)];
      }
      if !d.sections[section].ListSection? {
        var empty := new RuleList([]);
        d.sections := d.sections[section := ListSection(empty)];
      }
    }
    assert RequiredSections[..|RequiredSections|] == RequiredSections;
    if IsNormalised(old(d.sections)) {
      assert d.sections.Keys == old(d.sections.Keys);
    }
  }

  // ---------------------------------------------------------------------
  // Default rule set (constraint_parser.py `_get_default_constraints`)

  function Rule(t: string, value: Json): Json {
    JObject([Field("type", JStr(t)), Field("value", value)])
  }

  /**
   * The value under `key` in an object's fields; it reads the default rule
   * set, whose objects have no repeated key.
   */
  function Lookup(fields: seq<Field>, key: string): (r: Option<Json>)
    ensures r.None? <==> forall i :: 0 <= i < |fields| ==> fields[i].key != key
  {
    if fields == [] then None
    else if fields[0].key == key then Some(fields[0].value)
    else Lookup(fields[1..], key)
  }

  /** The value of the first rule of `rules` whose type is `t`. */
  function RuleValue(rules: seq<Json>, t: string): Option<Json> {
    if rules == [] then None
    else if rules[0].JObject? && Lookup(rules[0].fields, "type") == Some(JStr(t)) then Lookup(rules[0].fields, "value")
    else RuleValue(rules[1..], t)
  }

  const DefaultShiftRules: seq<Json> := [
    JObject([Field("type", JStr("no_consecutive_nights")), Field("enabled", JBool(true)), Field("min_rest_hours", JNum(24))]),
    Rule("max_consecutive_days", JNum(5)),
    Rule("workers_per_shift", JNum(1))]

  const DefaultTeamRules: seq<Json> := [
    JObject([Field("type", JStr("fair_distribution")), Field("enabled", JBool(true)), Field("max_variance", JNum(2))]),
    Rule("min_assignments_per_member", JNum(3))]

  /** The rule set returned whenever parsing fails. */
  function DefaultConstraints(): Json {
    JObject([
      Field("availability_rules", JList([])),
      Field("shift_rules", JList(DefaultShiftRules)),
      Field("member_rules", JList([])),
      Field("team_rules", JList(DefaultTeamRules))])
  }

  /**
   * The defaults hold every required section as a list, with no
   * availability or member rules, one worker per shift and at most five
   * consecutive shifts.
   */
  lemma DefaultConstraintsShape()
    ensures forall k :: k in RequiredSections ==>
      Lookup(DefaultConstraints().fields, k).Some? && Lookup(DefaultConstraints().fields, k).value.JList?
    ensures Lookup(DefaultConstraints().fields, "availability_rules") == Some(JList([]))
    ensures Lookup(DefaultConstraints().fields, "member_rules") == Some(JList([]))
    ensures RuleValue(DefaultShiftRules, "workers_per_shift") == Some(JNum(1))
    ensures RuleValue(DefaultShiftRules, "max_consecutive_days") == Some(JNum(5))
    ensures RuleValue(DefaultTeamRules, "min_assignments_per_member") == Some(JNum(3))
  {
    var fs := DefaultConstraints().fields;
    assert fs[1..][1..][1..] == [fs[3]];
    assert DefaultShiftRules[1..][1..] == [DefaultShiftRules[2]];
  }

  // ---------------------------------------------------------------------
  // Merging database limits (constraint_parser.py `merge_with_database_constraints`)

  /** Python truthiness of a value read with `db.get(key)`. */
  predicate Truthy(j: Json) {
    match j
    case JNull => false
    case JBool(b) => b
    case JNum(n) => n != 0
    case JStr(s) => s != ""
    case JList(xs) => xs != []
    case JObject(fs) => fs != []
  }

  const DbKeys: seq<string> := ["max_consecutive_days", "min_rest_hours", "workers_per_shift", "max_days_per_month"]

  predicate Given(db: map<string, Json>, key: string) {
    key in db && Truthy(db[key])
  }

  /** The rules appended for the keys `keys`, in order, each only when its value is truthy. */
  function DbRules(db: map<string, Json>, keys: seq<string>): seq<Json> {
    if keys == [] then []
    else (if Given(db, keys[0]) then [Rule(keys[0], db[keys[0]])] else []) + DbRules(db, keys[1..])
  }

  /** A `{type, value}` rule is appended iff its key is one of the four and its value is truthy. */
  lemma {:induction false} DbRulesMember(db: map<string, Json>, keys: seq<string>, j: Json)
    ensures j in DbRules(db, keys) <==> exists k :: k in keys && Given(db, k) && j == Rule(k, db[k])
  {
    if keys != [] {
      DbRulesMember(db, keys[1..], j);
      var head: seq<Json> := if Given(db, keys[0]) then [Rule(keys[0], db[keys[0]])] else [];
      assert DbRules(db, keys) == head + DbRules(db, keys[1..]);
      if exists k :: k in keys && Given(db, k) && j == Rule(k, db[k]) {
        var k :| k in keys && Given(db, k) && j == Rule(k, db[k]);
        if k != keys[0] {
          assert k in keys[1..];
        }
      }
    }
  }

  /** At most one rule per key, so never more than four. */
  lemma {:induction false} DbRulesLength(db: map<string, Json>, keys: seq<string>)
    ensures |DbRules(db, keys)| <= |keys|
    ensures DbRules(db, keys) == [] <==> forall k :: k in keys ==> !Given(db, k)
  {
    if keys != [] {
      DbRulesLength(db, keys[1..]);
      assert forall k :: k in keys ==> k == keys[0] || k in keys[1..];
    }
  }

  /**
   * When every value is given the rules come in the fixed key order:
   * consecutive days, rest hours, workers per shift, days per month.
   */
  lemma DbRulesAllGiven(db: map<string, Json>)
    requires Given(db, "max_consecutive_days") && Given(db, "min_rest_hours")
    requires Given(db, "workers_per_shift") && Given(db, "max_days_per_month")
    ensures DbRules(db, DbKeys) == [
      Rule("max_consecutive_days", db["max_consecutive_days"]),
      Rule("min_rest_hours", db["min_rest_hours"]),
      Rule("workers_per_shift", db["workers_per_shift"]),
      Rule("max_days_per_month", db["max_days_per_month"])]
  {
    var k := DbKeys;
    assert DbRules(db, k[3..]) == [Rule(k[3], db[k[3]])] + DbRules(db, k[4..]);
    assert DbRules(db, k[2..]) == [Rule(k[2], db[k[2]])] + DbRules(db, k[3..]) by { assert k[2..][1..] == k[3..]; }
    assert DbRules(db, k[1..]) == [Rule(k[1], db[k[1]])] + DbRules(db, k[2..]) by { assert k[1..][1..] == k[2..]; }
    assert DbRules(db, k) == [Rule(k[0], db[k[0]])] + DbRules(db, k[1..]);
  }

  /**
   * constraint_parser.py `merge_with_database_constraints`. The copy is
   * shallow: the merged dict holds the same section references as the
   * input, so the rules appended to its `shift_rules` list appear in the
   * input's as well. With a truthy value to append, a missing `shift_rules`
   * raises `KeyError` and a non-list one has no `append`.
   */
  method MergeWithDatabaseConstraints(parsed: ConstraintDict, db: map<string, Json>) returns (r: Result<ConstraintDict, string>)
    modifies if "shift_rules" in parsed.sections && parsed.sections["shift_rules"].ListSection?
      then {parsed.sections["shift_rules"].list} else {}
    ensures parsed.sections == old(parsed.sections)
    ensures r.Success? ==> fresh(r.value) && r.value.sections == parsed.sections
    ensures DbRules(db, DbKeys) == [] ==> r.Success?
    ensures DbRules(db, DbKeys) != [] ==>
      (r.Success? <==> "shift_rules" in parsed.sections && parsed.sections["shift_rules"].ListSection?)
    ensures r.Success? && "shift_rules" in parsed.sections && parsed.sections["shift_rules"].ListSection? ==>
      parsed.sections["shift_rules"].list.items == old(parsed.sections["shift_rules"].list.items) + DbRules(db, DbKeys)
  {
    var merged := new ConstraintDict(parsed.sections);
    var toAppend := DbRules(db, DbKeys);
    if toAppend == [] {
      return Success(merged);
    }
    if "shift_rules" !in merged.sections {
      return Failure("KeyError: 'shift_rules'");
    }
    if !merged.sections["shift_rules"].ListSection? {
      return Failure("AttributeError: 'append'");
    }
    var rules := merged.sections["shift_rules"].list;
    assert toAppend == DbRules(db, DbKeys[0..]);
    for i := 0 to |DbKeys|
      invariant rules.items == old(rules.items) + DbRules(db, DbKeys[..i])
      invariant parsed.sections == old(parsed.sections) && merged.sections == parsed.sections
    {
      var key := DbKeys[i];
      DbRulesSnoc(db, DbKeys, i);
      if key in db && Truthy(db[key]) {
        rules.items := rules.items + [Rule(key, db[key])];
      }
    }
    assert DbKeys[..|DbKeys|] == DbKeys;
    r := Success(merged);
  }

  /** The rules for one more key come after those for the keys before it. */
  lemma {:induction false} DbRulesSnoc(db: map<string, Json>, keys: seq<string>, i: nat)
    requires i < |keys|
    ensures DbRules(db, keys[..i + 1]) == DbRules(db, keys[..i]) + (if Given(db, keys[i]) then [Rule(keys[i], db[keys[i]])] else [])
  {
    if i == 0 {
      assert keys[..1] == [keys[0]];
      assert keys[..1][1..] == [];
    } else {
      var t := keys[1..];
      DbRulesSnoc(db, t, i - 1);
      assert keys[..i + 1][1..] == t[..i];
      assert keys[..i][1..] == t[..i - 1];
      assert keys[..i + 1][0] == keys[0] && keys[..i][0] == keys[0];
      assert t[i - 1] == keys[i];
    }
  }
}
