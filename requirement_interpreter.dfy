/** `backend/services/requirement_interpreter.py`: ask the language model for
    an interpretation, validate its JSON, note boundary values that name
    unknown inputs, and convert the JSON into an `InterpretationResult`. */
module Interpreter {
  import opened Common
  import opened JsonData
  import opened Schemas
  import Validator

  /** The exceptions that leave the pipeline: `ValueError` (raised by the AI
      client, by a failed validation and by the record conversion, whose
      `ValidationError` is a `ValueError`) and any other exception. */
  datatype Error = ValueError(message: string) | OtherError(message: string)

  datatype Outcome<T> = Success(value: T) | Failure(error: Error)

  /** `GeminiClient(api_key).interpret_requirement(requirement_id,
      requirement_text, inputs, outputs)`: the parsed JSON object, or the
      exception the client raised. */
  type AiClient = (string, string, string, seq<InputDef>, seq<OutputDef>) -> Outcome<seq<(string, Json)>>

  // ---------------------------------------------------------------------
  // The conversion into the Pydantic records.
  // ---------------------------------------------------------------------

  /** JSON strings of a list of texts. */
  function JStrs(xs: seq<string>): (r: seq<Json>)
    ensures |r| == |xs|
    ensures forall i :: 0 <= i < |xs| ==> r[i] == JStr(xs[i])
  {
    seq(|xs|, i requires 0 <= i < |xs| => JStr(xs[i]))
  }

  /** A `List[str]` field: every item must be a JSON string. */
  function AsStrings(items: seq<Json>): (r: Option<seq<string>>)
    ensures r.Some? <==> forall i :: 0 <= i < |items| ==> items[i].JStr?
    ensures r.Some? ==> JStrs(r.value) == items
  {
    if items == [] then Some([])
    else if !items[0].JStr? then None
    else
      match AsStrings(items[1..])
      case None => None
      case Some(rest) =>
        JStrsAppend([items[0].s], rest);
        assert JStrs([items[0].s]) == [items[0]];
        assert [items[0]] + items[1..] == items;
        Some([items[0].s] + rest)
  }

  /** A `str` field. */
  function AsString(j: Json): Option<string>
  {
    if j.JStr? then Some(j.s) else None
  }

  /** `Rule(rule_id=r["rule_id"], condition=r["condition"],
      expected_behavior=r["expected_behavior"])` */
  function AsRule(j: Json): (r: Option<Rule>)
    ensures r.Some? <==>
      Validator.RuleShaped(j) && Get(j.entries, "rule_id").JStr? &&
      Get(j.entries, "condition").JStr? && Get(j.entries, "expected_behavior").JStr?
    ensures r.Some? ==>
      Get(j.entries, "rule_id") == JStr(r.value.ruleId) &&
      Get(j.entries, "condition") == JStr(r.value.condition) &&
      Get(j.entries, "expected_behavior") == JStr(r.value.expectedBehavior)
  {
    if !Validator.RuleShaped(j) then None
    else
      var id, c, e := Get(j.entries, "rule_id"), Get(j.entries, "condition"), Get(j.entries, "expected_behavior");
      if id.JStr? && c.JStr? && e.JStr? then Some(Rule(id.s, c.s, e.s)) else None
  }

  /** `[Rule(...) for r in ai_result["rules"]]`: one rule per item, in order. */
  function AsRules(items: seq<Json>): (r: Option<seq<Rule>>)
    ensures r.Some? ==> |r.value| == |items|
    ensures r.Some? ==> forall i :: 0 <= i < |items| ==> AsRule(items[i]) == Some(r.value[i])
  {
    if items == [] then Some([])
    else
      match AsRule(items[0])
      case None => None
      case Some(first) =>
        match AsRules(items[1..])
        case None => None
        case Some(rest) =>
          assert forall i :: 1 <= i < |items| ==> items[i] == items[1..][i - 1];
          Some([first] + rest)
  }

  function AsStatus(j: Json): Option<InterpretationStatus>
  {
    if j == JStr("OK") then Some(OK) else if j == JStr("BLOCKED") then Some(BLOCKED) else None
  }

  function StatusName(s: InterpretationStatus): string
  {
    match s
    case OK => "OK"
    case BLOCKED => "BLOCKED"
  }

  /** The eight entries `InterpretationResult(...)` reads from the dict.
      The interpreter's only change to the dict, appending to its
      `assumptions` list, is modelled as an update of this record. */
  datatype RawFields = RawFields(
    requirementId: Json, status: Json, interpretedRequirement: Json, rules: Json,
    constraints: Json, boundaryValues: Json, assumptions: Json, ambiguities: Json)

  function Fields(obj: seq<(string, Json)>): RawFields
  {
    RawFields(
      Validator.Field(obj, "requirement_id"), Validator.Field(obj, "interpretation_status"),
      Validator.Field(obj, "interpreted_requirement"), Validator.Field(obj, "rules"),
      Validator.Field(obj, "constraints"), Validator.Field(obj, "boundary_values"),
      Validator.Field(obj, "assumptions"), Validator.Field(obj, "ambiguities"))
  }

  /** `InterpretationResult(...)`: every field converted from the entry of
      the same name, the rules one for one and `boundary_values` as it is;
      `None` where a value has the wrong type. */
  function Convert(f: RawFields): (r: Option<InterpretationResult>)
    ensures r.Some? ==>
      var v := r.value;
      && f.requirementId == JStr(v.requirementId)
      && f.status == JStr(StatusName(v.status))
      && f.interpretedRequirement == JStr(v.interpretedRequirement)
      && f.rules.JArr? && |v.rules| == |f.rules.items|
      && (forall i :: 0 <= i < |v.rules| ==> AsRule(f.rules.items[i]) == Some(v.rules[i]))
      && f.constraints == JArr(JStrs(v.constraints))
      && f.boundaryValues == JObj(v.boundaryValues)
      && f.assumptions == JArr(JStrs(v.assumptions))
      && f.ambiguities == JArr(JStrs(v.ambiguities))
    ensures r.None? ==>
      || !f.requirementId.JStr? || AsStatus(f.status).None? || !f.interpretedRequirement.JStr?
      || !f.rules.JArr? || !f.constraints.JArr? || !f.boundaryValues.JObj? || !f.assumptions.JArr?
      || !f.ambiguities.JArr?
      || AsRules(f.rules.items).None? || AsStrings(f.constraints.items).None?
      || AsStrings(f.assumptions.items).None? || AsStrings(f.ambiguities.items).None?
  {
    var id, status, text := AsString(f.requirementId), AsStatus(f.status), AsString(f.interpretedRequirement);
    if id.None? || status.None? || text.None? || !f.rules.JArr? || !f.constraints.JArr? ||
       !f.boundaryValues.JObj? || !f.assumptions.JArr? || !f.ambiguities.JArr?
    then None
    else
      var rs, cs := AsRules(f.rules.items), AsStrings(f.constraints.items);
      var as_, bs := AsStrings(f.assumptions.items), AsStrings(f.ambiguities.items);
      if rs.None? || cs.None? || as_.None? || bs.None? then None
      else
        assert f.status == JStr(StatusName(status.value));
        Some(InterpretationResult(id.value, status.value, text.value, rs.value, cs.value,
                                  f.boundaryValues.entries, as_.value, bs.value))
  }

  // ---------------------------------------------------------------------
  // interpret
  // ---------------------------------------------------------------------

  /** The warnings of `check_for_inventions` on a `boundary_values` dict,
      joined, or `None` when it found none. */
  function InventionWarning(bv: Json, inputs: seq<InputDef>): Option<string>
  {
    var keys := if bv.JObj? then Keys(bv.entries) else [];
    var w := Validator.UnknownWarnings(keys, Validator.InputNames(inputs));
    if w == [] then None else Some(Join(w, "; "))
  }

  /** The assumptions after `ai_result["assumptions"].append(f"WARNING: {warning_msg}")`. */
  function WithWarning(asm: Json, warning: Option<string>): Json
  {
    match warning
    case None => asm
    case Some(msg) => if asm.JArr? then JArr(asm.items + [JStr("WARNING: " + msg)]) else asm
  }

  /** The lines a warning adds to the assumptions: none, or `WARNING: <msg>`. */
  function WarningLines(warning: Option<string>): seq<string>
  {
    match warning
    case None => []
    case Some(msg) => ["WARNING: " + msg]
  }

  /** Assumptions that read back as the list after the warning are the
      original items followed by the warning's lines. */
  lemma WarningAppended(asm: Json, warning: Option<string>, assumptions: seq<string>)
    requires asm.JArr? && WithWarning(asm, warning) == JArr(JStrs(assumptions))
    ensures JStrs(assumptions) == asm.items + JStrs(WarningLines(warning))
  {
    match warning
    case None =>
      assert JStrs(WarningLines(warning)) == [];
    case Some(msg) =>
      assert JStrs(WarningLines(warning)) == [JStr("WARNING: " + msg)];
  }

  /** What `interpret` makes of the AI client's answer. An exception of the
      client passes through; an answer that fails validation raises
      `ValueError("AI output validation failed: <msg>")`; otherwise the
      result copies the answer's fields, the rules one for one, and the
      assumptions gain exactly one `WARNING: ...` at the end when some
      boundary value names an unknown input. A value of the wrong type makes
      the record conversion raise `ValueError(schemaError)`. */
  function Interpreted(answer: Outcome<seq<(string, Json)>>, inputs: seq<InputDef>, schemaError: string)
    : (r: Outcome<InterpretationResult>)
    ensures answer.Failure? ==> r == Failure(answer.error)
    ensures answer.Success? && !Validator.ValidateInterpretation(answer.value).0 ==>
      r == Failure(ValueError("AI output validation failed: " + Validator.ValidateInterpretation(answer.value).1))
    ensures r.Success? ==>
      var f, v := Fields(answer.value), r.value;
      var warning := InventionWarning(f.boundaryValues, inputs);
      && Validator.ValidateInterpretation(answer.value).0
      && f.requirementId == JStr(v.requirementId)
      && f.status == JStr(StatusName(v.status))
      && f.interpretedRequirement == JStr(v.interpretedRequirement)
      && |v.rules| == |f.rules.items|
      && (forall i :: 0 <= i < |v.rules| ==> AsRule(f.rules.items[i]) == Some(v.rules[i]))
      && f.constraints == JArr(JStrs(v.constraints))
      && f.boundaryValues == JObj(v.boundaryValues)
      && f.ambiguities == JArr(JStrs(v.ambiguities))
      && f.assumptions.JArr? && AsStrings(f.assumptions.items).Some?
      && v.assumptions == AsStrings(f.assumptions.items).value +
           WarningLines(warning)
    ensures r.Failure? && answer.Success? && Validator.ValidateInterpretation(answer.value).0 ==>
      r == Failure(ValueError(schemaError))
  {
    match answer
    case Failure(e) => Failure(e)
    case Success(obj) =>
      var check := Validator.ValidateInterpretation(obj);
      if !check.0 then Failure(ValueError("AI output validation failed: " + check.1))
      else
        var f := Fields(obj);
        var warning := InventionWarning(f.boundaryValues, inputs);
        match Convert(f.(assumptions := WithWarning(f.assumptions, warning)))
        case None => Failure(ValueError(schemaError))
        case Some(v) =>
          ValidShape(obj);
          WarningAppended(f.assumptions, warning, v.assumptions);
          AsStringsAppend(f.assumptions.items, WarningLines(warning));
          Success(v)
  }

  /** A validated answer has an `assumptions` list and a `boundary_values` dict. */
  lemma ValidShape(obj: seq<(string, Json)>)
    requires Validator.ValidateInterpretation(obj).0
    ensures Has(obj, "assumptions") && Validator.Field(obj, "assumptions").JArr?
    ensures Validator.Field(obj, "boundary_values").JObj?
  {
    assert Validator.RequiredFields[6] == "assumptions";
  }

  /** A list of strings with strings appended converts to the two parts. */
  lemma AsStringsAppend(items: seq<Json>, extra: seq<string>)
    requires AsStrings(items + JStrs(extra)).Some?
    ensures AsStrings(items).Some?
    ensures AsStrings(items + JStrs(extra)).value == AsStrings(items).value + extra
  {
    var joined := items + JStrs(extra);
    var all := AsStrings(joined).value;
    forall i | 0 <= i < |items|
      ensures items[i].JStr?
    {
      assert items[i] == joined[i];
    }
    var front := AsStrings(items).value;
    JStrsAppend(front, extra);
    JStrsInjective(all, front + extra);
  }

  lemma JStrsAppend(a: seq<string>, b: seq<string>)
    ensures JStrs(a + b) == JStrs(a) + JStrs(b)
  {
    forall i | 0 <= i < |a| + |b|
      ensures JStrs(a + b)[i] == (JStrs(a) + JStrs(b))[i]
    {
      assert (a + b)[i] == if i < |a| then a[i] else b[i - |a|];
    }
  }

  lemma JStrsInjective(a: seq<string>, b: seq<string>)
    requires JStrs(a) == JStrs(b)
    ensures a == b
  {
    assert |a| == |b|;
    forall i | 0 <= i < |a| ensures a[i] == b[i] {
      assert JStrs(a)[i] == JStrs(b)[i];
    }
  }

  /** `RequirementInterpreter(api_key).interpret(...)`: call the client,
      validate, append the warning to the answer's own assumptions list, and
      convert. */
  method Interpret(ai: AiClient, apiKey: string, requirementId: string, requirementText: string,
                   inputs: seq<InputDef>, outputs: seq<OutputDef>, schemaError: string)
    returns (r: Outcome<InterpretationResult>)
    ensures r == Interpreted(ai(apiKey, requirementId, requirementText, inputs, outputs), inputs, schemaError)
  {
    var answer := ai(apiKey, requirementId, requirementText, inputs, outputs);
    if answer.Failure? {
      return Failure(answer.error);
    }
    var aiResult := answer.value;
    var check := Validator.ValidateInterpretation(aiResult);
    if !check.0 {
      return Failure(ValueError("AI output validation failed: " + check.1));
    }
    ValidShape(aiResult);
    var fields := Fields(aiResult);
    var bv := fields.boundaryValues;
    var isSafe, warningMsg := Validator.CheckForInventions(bv.entries, inputs);
    assert isSafe <==> InventionWarning(bv, inputs).None? by {
      Validator.UnknownWarningsEmpty(Keys(bv.entries), Validator.InputNames(inputs));
    }
    if !isSafe {
      fields := fields.(assumptions := JArr(fields.assumptions.items + [JStr("WARNING: " + warningMsg)]));
    }
    var converted := Convert(fields);
    if converted.None? {
      return Failure(ValueError(schemaError));
    }
    r := Success(converted.value);
  }

  /** When every boundary value names an input, the interpretation's
      assumptions are exactly the answer's, with nothing added. */
  lemma NoWarningKeepsAssumptions(obj: seq<(string, Json)>, inputs: seq<InputDef>, schemaError: string)
    requires Fields(obj).boundaryValues.JObj?
    requires forall k :: k in Keys(Fields(obj).boundaryValues.entries) ==> k in Validator.InputNames(inputs)
    requires Interpreted(Success(obj), inputs, schemaError).Success?
    ensures Fields(obj).assumptions == JArr(JStrs(Interpreted(Success(obj), inputs, schemaError).value.assumptions))
  {
    var keys := Keys(Fields(obj).boundaryValues.entries);
    Validator.UnknownWarningsEmpty(keys, Validator.InputNames(inputs));
    assert InventionWarning(Fields(obj).boundaryValues, inputs).None?;
    var v := Interpreted(Success(obj), inputs, schemaError).value;
    assert v.assumptions == AsStrings(Fields(obj).assumptions.items).value;
  }
}
