/** `backend/validators/ai_output_validator.py`: structural checks on the
    language model's JSON answer, and the check for boundary values that name
    inputs the user never defined. */
module Validator {
  import opened Common
  import opened JsonData
  import opened Schemas

  /** The eight fields every interpretation must carry, in checking order. */
  const RequiredFields: seq<string> := [
    "requirement_id", "interpretation_status", "interpreted_requirement", "rules",
    "constraints", "boundary_values", "assumptions", "ambiguities"]

  /** `obj[f]` for a field known to be present; `null` otherwise. */
  function Field(obj: seq<(string, Json)>, f: string): Json
  {
    if Has(obj, f) then Get(obj, f) else JNull
  }

  /** Index of the first required field, from `k` on, that `obj` lacks
      (8 when all are present). */
  function FirstMissing(obj: seq<(string, Json)>, k: nat): (r: nat)
    requires k <= |RequiredFields|
    ensures k <= r <= |RequiredFields|
    ensures r < |RequiredFields| ==> !Has(obj, RequiredFields[r])
    ensures forall j :: k <= j < r ==> Has(obj, RequiredFields[j])
    decreases |RequiredFields| - k
  {
    if k == |RequiredFields| then k
    else if !Has(obj, RequiredFields[k]) then k
    else FirstMissing(obj, k + 1)
  }

  /** A rule entry is a dict holding `rule_id`, `condition` and `expected_behavior`. */
  predicate RuleShaped(j: Json)
  {
    j.JObj? && Has(j.entries, "rule_id") && Has(j.entries, "condition") && Has(j.entries, "expected_behavior")
  }

  /** Index of the first malformed rule from `k` on (`|items|` when none). */
  function FirstBadRule(items: seq<Json>, k: nat): (r: nat)
    requires k <= |items|
    ensures k <= r <= |items|
    ensures r < |items| ==> !RuleShaped(items[r])
    ensures forall j :: k <= j < r ==> RuleShaped(items[j])
    decreases |items| - k
  {
    if k == |items| then k
    else if !RuleShaped(items[k]) then k
    else FirstBadRule(items, k + 1)
  }

  function RuleError(items: seq<Json>, b: nat): string
    requires b < |items|
  {
    if !items[b].JObj? then "Rule " + NatToString(b) + " must be a dictionary"
    else "Rule " + NatToString(b) + " missing required fields (rule_id, condition, expected_behavior)"
  }

  /** Everything `validate_interpretation` demands, stated as one conjunction. */
  predicate Acceptable(obj: seq<(string, Json)>)
  {
    var status := Field(obj, "interpretation_status");
    var rules := Field(obj, "rules");
    && (forall i :: 0 <= i < |RequiredFields| ==> Has(obj, RequiredFields[i]))
    && (status == JStr("OK") || status == JStr("BLOCKED"))
    && (status == JStr("BLOCKED") ==> Truthy(Field(obj, "ambiguities")))
    && rules.JArr?
    && (forall i :: 0 <= i < |rules.items| ==> RuleShaped(rules.items[i]))
    && Field(obj, "constraints").JArr?
    && Field(obj, "assumptions").JArr?
    && Field(obj, "ambiguities").JArr?
    && Field(obj, "boundary_values").JObj?
    && (status == JStr("OK") ==> rules.items != [])
  }

  /** The first three checks pass: every field present, a known status, and
      a BLOCKED answer lists ambiguities. */
  predicate HeaderPasses(obj: seq<(string, Json)>)
  {
    var status := Field(obj, "interpretation_status");
    && FirstMissing(obj, 0) == |RequiredFields|
    && (status == JStr("OK") || status == JStr("BLOCKED"))
    && (status == JStr("BLOCKED") ==> Truthy(Field(obj, "ambiguities")))
  }

  /** ...and the rules are a list of rule-shaped entries. */
  predicate RulesPass(obj: seq<(string, Json)>)
  {
    var rules := Field(obj, "rules");
    HeaderPasses(obj) && rules.JArr? && FirstBadRule(rules.items, 0) == |rules.items|
  }

  /** The checks after the status: the rules, the three lists, the boundary
      values, and an OK answer's rules, each with its own message. */
  function LaterChecks(obj: seq<(string, Json)>): (r: (bool, string))
    ensures var rules := Field(obj, "rules");
      r.0 <==> rules.JArr? && (forall i :: 0 <= i < |rules.items| ==> RuleShaped(rules.items[i]))
               && Field(obj, "constraints").JArr? && Field(obj, "assumptions").JArr?
               && Field(obj, "ambiguities").JArr? && Field(obj, "boundary_values").JObj?
               && (Field(obj, "interpretation_status") == JStr("OK") ==> rules.items != [])
    ensures r.0 ==> r.1 == "Validation passed"
    ensures !Field(obj, "rules").JArr? ==> r == (false, "rules must be a list")
    ensures Field(obj, "rules").JArr? &&
            FirstBadRule(Field(obj, "rules").items, 0) < |Field(obj, "rules").items| ==>
              r == (false, RuleError(Field(obj, "rules").items, FirstBadRule(Field(obj, "rules").items, 0)))
  {
    var status := Field(obj, "interpretation_status");
    var rules := Field(obj, "rules");
    if !rules.JArr? then
      (false, "rules must be a list")
    else
      var b := FirstBadRule(rules.items, 0);
      if b < |rules.items| then (false, RuleError(rules.items, b))
      else if !Field(obj, "constraints").JArr? then (false, "constraints must be a list")
      else if !Field(obj, "assumptions").JArr? then (false, "assumptions must be a list")
      else if !Field(obj, "ambiguities").JArr? then (false, "ambiguities must be a list")
      else if !Field(obj, "boundary_values").JObj? then (false, "boundary_values must be a dictionary")
      else if status == JStr("OK") && rules.items == [] then (false, "Status is OK but no rules extracted")
      else (true, "Validation passed")
  }

  /** `validate_interpretation`: `(True, "Validation passed")` exactly when
      every check passes; otherwise the message of the first failed check. */
  function ValidateInterpretation(obj: seq<(string, Json)>): (r: (bool, string))
    ensures r.0 <==> Acceptable(obj)
    ensures r.0 ==> r.1 == "Validation passed"
    ensures FirstMissing(obj, 0) < |RequiredFields| ==>
              r == (false, "Missing required field: " + RequiredFields[FirstMissing(obj, 0)])
    ensures FirstMissing(obj, 0) == |RequiredFields| &&
            Field(obj, "interpretation_status") != JStr("OK") &&
            Field(obj, "interpretation_status") != JStr("BLOCKED") ==>
              r == (false, "interpretation_status must be 'OK' or 'BLOCKED'")
    ensures FirstMissing(obj, 0) == |RequiredFields| &&
            Field(obj, "interpretation_status") == JStr("BLOCKED") &&
            !Truthy(Field(obj, "ambiguities")) ==>
              r == (false, "Status is BLOCKED but no ambiguities listed")
    ensures HeaderPasses(obj) && !Field(obj, "rules").JArr? ==> r == (false, "rules must be a list")
    ensures HeaderPasses(obj) && Field(obj, "rules").JArr? &&
            FirstBadRule(Field(obj, "rules").items, 0) < |Field(obj, "rules").items| ==>
              r == (false, RuleError(Field(obj, "rules").items, FirstBadRule(Field(obj, "rules").items, 0)))
    ensures RulesPass(obj) && !Field(obj, "constraints").JArr? ==> r == (false, "constraints must be a list")
    ensures RulesPass(obj) && Field(obj, "constraints").JArr? && !Field(obj, "assumptions").JArr? ==>
              r == (false, "assumptions must be a list")
    ensures RulesPass(obj) && Field(obj, "constraints").JArr? && Field(obj, "assumptions").JArr? &&
            !Field(obj, "ambiguities").JArr? ==>
              r == (false, "ambiguities must be a list")
    ensures RulesPass(obj) && Field(obj, "constraints").JArr? && Field(obj, "assumptions").JArr? &&
            Field(obj, "ambiguities").JArr? && !Field(obj, "boundary_values").JObj? ==>
              r == (false, "boundary_values must be a dictionary")
    ensures RulesPass(obj) && Field(obj, "constraints").JArr? && Field(obj, "assumptions").JArr? &&
            Field(obj, "ambiguities").JArr? && Field(obj, "boundary_values").JObj? &&
            Field(obj, "interpretation_status") == JStr("OK") && Field(obj, "rules").items == [] ==>
              r == (false, "Status is OK but no rules extracted")
  {
    var m := FirstMissing(obj, 0);
    if m < |RequiredFields| then
      (false, "Missing required field: " + RequiredFields[m])
    else
      var status := Field(obj, "interpretation_status");
      var rules := Field(obj, "rules");
      if status != JStr("OK") && status != JStr("BLOCKED") then
        (false, "interpretation_status must be 'OK' or 'BLOCKED'")
      else if status == JStr("BLOCKED") && !Truthy(Field(obj, "ambiguities")) then
        (false, "Status is BLOCKED but no ambiguities listed")
      else LaterChecks(obj)
  }

  /** Once the first three checks pass, whatever the status, a malformed
      rule is reported by its index, and only the first one is. */
  lemma BadRuleReported(obj: seq<(string, Json)>, b: nat)
    requires forall i :: 0 <= i < |RequiredFields| ==> Has(obj, RequiredFields[i])
    requires Field(obj, "interpretation_status") == JStr("OK") ||
             (Field(obj, "interpretation_status") == JStr("BLOCKED") && Truthy(Field(obj, "ambiguities")))
    requires Field(obj, "rules").JArr? && b < |Field(obj, "rules").items|
    requires !RuleShaped(Field(obj, "rules").items[b])
    requires forall j :: 0 <= j < b ==> RuleShaped(Field(obj, "rules").items[j])
    ensures ValidateInterpretation(obj) == (false, RuleError(Field(obj, "rules").items, b))
  {
    assert FirstMissing(obj, 0) == |RequiredFields|;
    var items := Field(obj, "rules").items;
    var fb := FirstBadRule(items, 0);
    assert fb == b;
  }

  /** An `OK` answer with an empty rule list is refused. */
  lemma OkWithoutRulesRejected(obj: seq<(string, Json)>)
    requires Field(obj, "interpretation_status") == JStr("OK")
    requires Field(obj, "rules") == JArr([])
    ensures ValidateInterpretation(obj).0 == false
  {
  }

  function InputNames(inputs: seq<InputDef>): set<string>
  {
    set i | 0 <= i < |inputs| :: inputs[i].name
  }

  /** One warning per boundary-value key that is not an input name, in key order. */
  function UnknownWarnings(keys: seq<string>, names: set<string>): (r: seq<string>)
    ensures |r| <= |keys|
  {
    if keys == [] then []
    else
      var last := keys[|keys| - 1];
      UnknownWarnings(keys[..|keys| - 1], names) +
      (if last !in names then ["Boundary value references unknown input: " + last] else [])
  }

  /** No warnings exactly when every key names an input. */
  lemma {:induction false} UnknownWarningsEmpty(keys: seq<string>, names: set<string>)
    ensures UnknownWarnings(keys, names) == [] <==> forall k :: k in keys ==> k in names
  {
    if keys != [] {
      var init := keys[..|keys| - 1];
      UnknownWarningsEmpty(init, names);
      assert keys == init + [keys[|keys| - 1]];
    }
  }

  /** `check_for_inventions`: False exactly when some boundary-value key is
      not an input name, with the warnings joined by "; " in key order. */
  method CheckForInventions(boundaryValues: seq<(string, Json)>, inputs: seq<InputDef>)
    returns (isSafe: bool, message: string)
    ensures isSafe <==> forall k :: k in Keys(boundaryValues) ==> k in InputNames(inputs)
    ensures isSafe ==> message == "No inventions detected"
    ensures !isSafe ==> message == Join(UnknownWarnings(Keys(boundaryValues), InputNames(inputs)), "; ")
  {
    var names := InputNames(inputs);
    var keys := Keys(boundaryValues);
    var warnings: seq<string> := [];
    var i := 0;
    while i < |keys|
      invariant 0 <= i <= |keys|
      invariant warnings == UnknownWarnings(keys[..i], names)
    {
      assert keys[..i + 1][..i] == keys[..i];
      if keys[i] !in names {
        warnings := warnings + ["Boundary value references unknown input: " + keys[i]];
      }
      i := i + 1;
    }
    assert keys[..i] == keys;
    UnknownWarningsEmpty(keys, names);
    if warnings != [] {
      isSafe, message := false, Join(warnings, "; ");
    } else {
      isSafe, message := true, "No inventions detected";
    }
  }
}
