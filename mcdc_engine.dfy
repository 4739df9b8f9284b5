/** `backend/services/mcdc_engine.py`: one all-true case and one case per
    condition variable with that variable made false. */
module Mcdc {
  import opened Common
  import opened Schemas
  import opened Numbering

  /** `_extract_condition_variables` as a value: the input names, in input
      order, whose lowercase form occurs in the lowercased condition. */
  function ConditionVariables(condition: string, inputs: seq<InputDef>): (r: seq<string>)
    ensures |r| <= |inputs|
    ensures forall v :: v in r <==> exists i :: 0 <= i < |inputs| && inputs[i].name == v && Contains(Lower(condition), Lower(v))
  {
    if inputs == [] then []
    else
      var n := |inputs| - 1;
      var init := ConditionVariables(condition, inputs[..n]);
      assert forall i :: 0 <= i < n ==> inputs[..n][i] == inputs[i];
      init + (if Contains(Lower(condition), Lower(inputs[n].name)) then [inputs[n].name] else [])
  }

  /** `_extract_condition_variables`: append each matching input name. */
  method ExtractConditionVariables(condition: string, inputs: seq<InputDef>) returns (variables: seq<string>)
    ensures variables == ConditionVariables(condition, inputs)
  {
    variables := [];
    var i := 0;
    while i < |inputs|
      invariant 0 <= i <= |inputs|
      invariant variables == ConditionVariables(condition, inputs[..i])
    {
      assert inputs[..i + 1][..i] == inputs[..i];
      if Contains(Lower(condition), Lower(inputs[i].name)) {
        variables := variables + [inputs[i].name];
      }
      i := i + 1;
    }
    assert inputs[..i] == inputs;
  }

  /** `_get_true_value` */
  function TrueValue(d: InputDef): Value
  {
    if IsBoolType(d.dataType) then VBool(true)
    else if d.rangeMin.Some? && d.rangeMax.Some? then VNum((d.rangeMin.value + d.rangeMax.value) / 2.0)
    else if NonEmpty(d.allowedValues) then VStr(d.allowedValues.value[0])
    else VStr("VALID_VALUE")
  }

  /** `_get_false_value` */
  function FalseValue(d: InputDef): Value
  {
    if IsBoolType(d.dataType) then VBool(false)
    else if d.rangeMin.Some? then VNum(d.rangeMin.value - 1.0)
    else if NonEmpty(d.allowedValues) then VStr("INVALID_VALUE")
    else VNull
  }

  /** The false value really differs from the true value, unless the range
      is inverted far enough or the first allowed value is the sentinel. */
  lemma TrueAndFalseDiffer(d: InputDef)
    requires d.rangeMin.Some? && d.rangeMax.Some? ==> d.rangeMin.value <= d.rangeMax.value
    requires NonEmpty(d.allowedValues) ==> d.allowedValues.value[0] != "INVALID_VALUE"
    ensures TrueValue(d) != FalseValue(d)
  {
  }

  /** `next((i for i in inputs if i.name == var), None)` */
  function FirstNamed(inputs: seq<InputDef>, name: string): (r: Option<InputDef>)
    ensures r.Some? <==> exists i :: 0 <= i < |inputs| && inputs[i].name == name
    ensures r.Some? ==> r.value in inputs && r.value.name == name
  {
    if inputs == [] then None
    else if inputs[0].name == name then Some(inputs[0])
    else
      var r := FirstNamed(inputs[1..], name);
      assert forall i :: 1 <= i < |inputs| ==> inputs[i] == inputs[1..][i - 1];
      r
  }

  /** The value each condition variable takes in the all-true case. */
  function TrueValueOf(inputs: seq<InputDef>, v: string): Value
  {
    match FirstNamed(inputs, v)
    case Some(d) => TrueValue(d)
    case None => VNull
  }

  function FalseValueOf(inputs: seq<InputDef>, v: string): Value
  {
    match FirstNamed(inputs, v)
    case Some(d) => FalseValue(d)
    case None => VNull
  }

  /** `all_true_inputs` */
  function AllTrueInputs(vars: seq<string>, inputs: seq<InputDef>): (m: map<string, Value>)
    ensures m.Keys == set v | v in vars && FirstNamed(inputs, v).Some?
  {
    map v | v in vars && FirstNamed(inputs, v).Some? :: TrueValueOf(inputs, v)
  }

  /** The inputs of the case that makes `v` false. */
  function OneFalseInputs(vars: seq<string>, inputs: seq<InputDef>, v: string): map<string, Value>
  {
    var base := AllTrueInputs(vars, inputs);
    if FirstNamed(inputs, v).Some? then base[v := FalseValueOf(inputs, v)] else base
  }

  function AllTrueCase(rule: Rule, vars: seq<string>, inputs: seq<InputDef>, req: string, n: nat): TestCase
  {
    TestCase(TcId(req, n), rule.ruleId, "MC/DC", "All conditions true for " + rule.ruleId,
             AllTrueInputs(vars, inputs), map["result" := VStr("All conditions satisfied")],
             HIGH, VALID, Traceability(req, rule.ruleId))
  }

  function OneFalseCase(rule: Rule, vars: seq<string>, inputs: seq<InputDef>, req: string, v: string, n: nat): TestCase
  {
    TestCase(TcId(req, n), rule.ruleId, "MC/DC", "Condition " + v + " false for " + rule.ruleId,
             OneFalseInputs(vars, inputs, v), map["result" := VStr("Condition " + v + " not satisfied")],
             MEDIUM, VALID, Traceability(req, rule.ruleId))
  }

  /** The one-false cases for `vars[..k]`, numbered from `n`. */
  function OneFalseCases(rule: Rule, vars: seq<string>, inputs: seq<InputDef>, req: string, k: nat, n: nat): (r: seq<TestCase>)
    requires k <= |vars|
    ensures |r| == k
    ensures forall i :: 0 <= i < k ==> r[i] == OneFalseCase(rule, vars, inputs, req, vars[i], n + i)
  {
    if k == 0 then [] else OneFalseCases(rule, vars, inputs, req, k - 1, n) + [OneFalseCase(rule, vars, inputs, req, vars[k - 1], n + k - 1)]
  }

  /** `generate_mcdc_tests` as a value, numbered from `start`. */
  function McdcCases(rule: Rule, inputs: seq<InputDef>, req: string, start: nat): (r: seq<TestCase>)
    ensures var vars := ConditionVariables(rule.condition, inputs);
      && (vars == [] <==> r == [])
      && (vars != [] ==> |r| == 1 + |vars|)
  {
    var vars := ConditionVariables(rule.condition, inputs);
    if vars == [] then []
    else [AllTrueCase(rule, vars, inputs, req, start)] + OneFalseCases(rule, vars, inputs, req, |vars|, start + 1)
  }

  lemma {:induction false} OneFalseNumbered(rule: Rule, vars: seq<string>, inputs: seq<InputDef>, req: string, k: nat, n: nat)
    requires k <= |vars|
    ensures NumberedFrom(OneFalseCases(rule, vars, inputs, req, k, n), req, n)
    ensures TracesTo(OneFalseCases(rule, vars, inputs, req, k, n), req, rule.ruleId)
  {
    if k > 0 {
      OneFalseNumbered(rule, vars, inputs, req, k - 1, n);
      var last := OneFalseCase(rule, vars, inputs, req, vars[k - 1], n + k - 1);
      NumberedAppend(OneFalseCases(rule, vars, inputs, req, k - 1, n), [last], req, n);
    }
  }

  /** The cases carry consecutive ids from `start` and trace to the rule. */
  lemma McdcCasesNumbered(rule: Rule, inputs: seq<InputDef>, req: string, start: nat)
    ensures NumberedFrom(McdcCases(rule, inputs, req, start), req, start)
    ensures TracesTo(McdcCases(rule, inputs, req, start), req, rule.ruleId)
  {
    var vars := ConditionVariables(rule.condition, inputs);
    if vars != [] {
      var first := [AllTrueCase(rule, vars, inputs, req, start)];
      var rest := OneFalseCases(rule, vars, inputs, req, |vars|, start + 1);
      assert McdcCases(rule, inputs, req, start) == first + rest;
      OneFalseNumbered(rule, vars, inputs, req, |vars|, start + 1);
      NumberedAppend(first, rest, req, start);
      TracesAppend(first, rest, req, rule.ruleId);
    }
  }

  /** All are VALID MC/DC cases; the all-true case is HIGH, the rest MEDIUM. */
  lemma McdcCasesPriorities(rule: Rule, inputs: seq<InputDef>, req: string, start: nat)
    ensures var r := McdcCases(rule, inputs, req, start);
      forall i :: 0 <= i < |r| ==>
        r[i].validity == VALID && r[i].testType == "MC/DC" && r[i].priority == (if i == 0 then HIGH else MEDIUM)
  {
    var vars := ConditionVariables(rule.condition, inputs);
    var r := McdcCases(rule, inputs, req, start);
    if vars != [] {
      var rest := OneFalseCases(rule, vars, inputs, req, |vars|, start + 1);
      assert forall i :: 1 <= i < |r| ==> r[i] == rest[i - 1];
    }
  }

  /** Each one-false case equals the all-true case except at its own
      variable, which takes the false value; its expected result names it. */
  lemma OneFalseDiffersAtItsVariable(rule: Rule, inputs: seq<InputDef>, req: string, start: nat, k: nat)
    requires 0 < k < |McdcCases(rule, inputs, req, start)|
    ensures var vars := ConditionVariables(rule.condition, inputs);
      var r := McdcCases(rule, inputs, req, start);
      var v := vars[k - 1];
      && r[k].inputs == r[0].inputs[v := FalseValueOf(inputs, v)]
      && r[k].expectedOutput == map["result" := VStr("Condition " + v + " not satisfied")]
      && r[0].expectedOutput == map["result" := VStr("All conditions satisfied")]
  {
    var vars := ConditionVariables(rule.condition, inputs);
    var v := vars[k - 1];
    assert v in vars;
    assert FirstNamed(inputs, v).Some?;
  }

  /** `generate_mcdc_tests`: the all-true case, then one case per variable,
      each taking the next number from the shared counter. */
  method GenerateMcdcTests(rule: Rule, inputs: seq<InputDef>, req: string, counter: TcCounter) returns (cases: seq<TestCase>)
    modifies counter
    ensures cases == McdcCases(rule, inputs, req, old(counter.count))
    ensures counter.count == old(counter.count) + |cases|
  {
    var vars := ExtractConditionVariables(rule.condition, inputs);
    if |vars| == 0 {
      return [];
    }
    var allTrue := BuildAllTrueInputs(vars, inputs);
    var start := counter.count;
    var id := counter.Next(req);
    var first := TestCase(id, rule.ruleId, "MC/DC", "All conditions true for " + rule.ruleId,
                          allTrue, map["result" := VStr("All conditions satisfied")],
                          HIGH, VALID, Traceability(req, rule.ruleId));
    assert first == AllTrueCase(rule, vars, inputs, req, start);
    var rest := AppendOneFalse(rule, vars, inputs, req, allTrue, counter);
    cases := [first] + rest;
  }

  /** The loop over condition variables: each case copies the all-true
      inputs and makes one variable false. */
  method AppendOneFalse(rule: Rule, vars: seq<string>, inputs: seq<InputDef>, req: string,
                        allTrue: map<string, Value>, counter: TcCounter) returns (cases: seq<TestCase>)
    requires allTrue == AllTrueInputs(vars, inputs)
    modifies counter
    ensures cases == OneFalseCases(rule, vars, inputs, req, |vars|, old(counter.count))
    ensures counter.count == old(counter.count) + |cases|
  {
    var start := counter.count;
    cases := [];
    var k := 0;
    while k < |vars|
      invariant 0 <= k <= |vars|
      invariant counter.count == start + k
      invariant cases == OneFalseCases(rule, vars, inputs, req, k, start)
    {
      var testInputs := allTrue;
      var found := FirstNamed(inputs, vars[k]);
      if found.Some? {
        testInputs := testInputs[vars[k] := FalseValue(found.value)];
      }
      assert testInputs == OneFalseInputs(vars, inputs, vars[k]);
      var m := counter.count;
      var id := counter.Next(req);
      var tc := TestCase(id, rule.ruleId, "MC/DC", "Condition " + vars[k] + " false for " + rule.ruleId,
                         testInputs, map["result" := VStr("Condition " + vars[k] + " not satisfied")],
                         MEDIUM, VALID, Traceability(req, rule.ruleId));
      assert tc == OneFalseCase(rule, vars, inputs, req, vars[k], m);
      assert OneFalseCases(rule, vars, inputs, req, k + 1, start) == cases + [tc];
      cases := cases + [tc];
      k := k + 1;
    }
  }

  /** The loop filling `all_true_inputs`. */
  method BuildAllTrueInputs(vars: seq<string>, inputs: seq<InputDef>) returns (allTrue: map<string, Value>)
    ensures allTrue == AllTrueInputs(vars, inputs)
  {
    allTrue := map[];
    var i := 0;
    while i < |vars|
      invariant 0 <= i <= |vars|
      invariant allTrue == AllTrueInputs(vars[..i], inputs)
    {
      AllTrueStep(vars, inputs, i);
      var found := FirstNamed(inputs, vars[i]);
      if found.Some? {
        allTrue := allTrue[vars[i] := TrueValue(found.value)];
      }
      i := i + 1;
    }
    assert vars[..i] == vars;
  }

  /** One more variable adds its true value, when some input carries its name. */
  lemma AllTrueStep(vars: seq<string>, inputs: seq<InputDef>, i: nat)
    requires i < |vars|
    ensures var m, v := AllTrueInputs(vars[..i], inputs), vars[i];
      AllTrueInputs(vars[..i + 1], inputs) == if FirstNamed(inputs, v).Some? then m[v := TrueValueOf(inputs, v)] else m
  {
    assert vars[..i + 1] == vars[..i] + [vars[i]];
  }
}
