/** `backend/main.py`: the body of the `/generate-test-cases` endpoint. The
    interpretation, strategy, builder and coverage services are the ones of
    this model; the AI client is a parameter and the response timestamp is
    not modelled. */
module Endpoint {
  import opened Common
  import opened Schemas
  import opened Interpreter
  import Strategy
  import Builder
  import Coverage
  import Numbering

  /** The endpoint's answer: the response body, or the `HTTPException` it raised. */
  datatype HttpResult = Ok(body: GenerateResponse) | HttpError(statusCode: nat, detail: string)

  /** The response for a BLOCKED interpretation: no test cases, an empty
      `rule_coverage`, and a report that counts the rules but none as covered. */
  function BlockedResponse(request: GenerateRequest, interpretation: InterpretationResult): GenerateResponse
  {
    GenerateResponse(
      interpretation, [],
      TraceabilityMatrix(request.requirementId, []),
      CoverageReport(request.requirementId, |interpretation.rules|, 0, 0.0, [], 0, 0, 0))
  }

  /** `except ValueError` -> 400 with the message; any other exception -> 500. */
  function ErrorResponse(e: Error): (r: HttpResult)
    ensures r.HttpError?
    ensures e.ValueError? <==> r.statusCode == 400
    ensures e.ValueError? ==> r.detail == e.message
    ensures e.OtherError? ==> r.statusCode == 500 && r.detail == "Internal server error: " + e.message
  {
    match e
    case ValueError(m) => HttpError(400, m)
    case OtherError(m) => HttpError(500, "Internal server error: " + m)
  }

  /** The interpretation the endpoint works from. */
  function InterpretationOf(request: GenerateRequest, ai: AiClient, schemaError: string): Outcome<InterpretationResult>
  {
    Interpreted(ai(request.apiKey, request.requirementId, request.requirementText, request.inputs, request.outputs),
                request.inputs, schemaError)
  }

  /** `generate_test_cases`. A failed interpretation becomes an HTTP error; a
      BLOCKED one returns at once with empty results; an OK one runs
      strategies, builder, matrix and report over the same rules and the same
      list of test cases. */
  method GenerateTestCases(request: GenerateRequest, ai: AiClient, schemaError: string, render: Value -> string)
    returns (resp: HttpResult)
    ensures var interp := InterpretationOf(request, ai, schemaError);
      && (interp.Failure? ==> resp == ErrorResponse(interp.error))
      && (interp.Success? ==> resp.Ok? && resp.body.interpretation == interp.value)
      && (interp.Success? && interp.value.status == BLOCKED ==> resp == Ok(BlockedResponse(request, interp.value)))
    ensures var interp := InterpretationOf(request, ai, schemaError);
      interp.Success? && interp.value.status == OK ==> resp.Ok? && PipelineResult(request, interp.value, render, resp.body)
  {
    var interp := Interpret(ai, request.apiKey, request.requirementId, request.requirementText,
                            request.inputs, request.outputs, schemaError);
    if interp.Failure? {
      return ErrorResponse(interp.error);
    }
    var interpretation := interp.value;
    if interpretation.status == BLOCKED {
      return Ok(BlockedResponse(request, interpretation));
    }
    var body := RunPipeline(request, interpretation, render);
    resp := Ok(body);
  }

  /** What the OK path returns: the builder's cases for the strategies of the
      interpretation's rules, numbered from 1, with a matrix and a report
      computed over those same rules and cases. */
  ghost predicate PipelineResult(request: GenerateRequest, interpretation: InterpretationResult, render: Value -> string,
                                 body: GenerateResponse)
  {
    var rules := interpretation.rules;
    var strategies := Strategy.StrategyMap(rules, request.inputs, interpretation.boundaryValues != []);
    var tcs := body.testCases;
    var m := body.traceabilityMatrix;
    var rep := body.coverageReport;
    && body.interpretation == interpretation
    && tcs == Builder.AllCases(rules, strategies, request.inputs, request.outputs, request.requirementId,
                               Builder.Standard(render), 1)
    && Numbering.NumberedFrom(tcs, request.requirementId, 1)
    && Coverage.EntryKeys(m.ruleCoverage) == Coverage.DistinctIds(Coverage.RuleIds(rules))
    && (forall k :: 0 <= k < |m.ruleCoverage| ==> m.ruleCoverage[k].1 == Coverage.RelatedTcs(tcs, m.ruleCoverage[k].0))
    && m.requirementId == (if tcs == [] then "UNKNOWN" else request.requirementId)
    && rep.requirementId == request.requirementId
    && rep.totalRules == |rules|
    && rep.rulesCovered == |Coverage.CoveredRuleIds(tcs)|
    && rep.validTestCount + rep.invalidTestCount == rep.totalTestCount == |tcs|
  }

  /** The OK path: strategies, builder, matrix and report in turn. */
  method RunPipeline(request: GenerateRequest, interpretation: InterpretationResult, render: Value -> string)
    returns (body: GenerateResponse)
    ensures PipelineResult(request, interpretation, render, body)
  {
    var strategies := Strategy.DetermineStrategies(interpretation.rules, request.inputs, interpretation.boundaryValues);
    var testCases := Builder.BuildTestCases(interpretation.rules, request.inputs, request.outputs, strategies,
                                            request.requirementId, Builder.Standard(render));
    var matrix := Coverage.GenerateTraceabilityMatrix(interpretation.rules, testCases);
    var report := Coverage.GenerateCoverageReport(interpretation.rules, testCases, request.requirementId);
    body := GenerateResponse(interpretation, testCases, matrix, report);
  }

  /** The BLOCKED report is not what the coverage engine would compute: it
      counts every rule, yet covers none and lists none in the matrix, even
      when the interpretation carries rules. */
  lemma BlockedReportCountsRulesOnly(request: GenerateRequest, interpretation: InterpretationResult)
    requires |interpretation.rules| > 0
    ensures var r := BlockedResponse(request, interpretation);
      && r.coverageReport.totalRules == |interpretation.rules| > r.coverageReport.rulesCovered == 0
      && r.coverageReport.coveragePercentage == Coverage.Percentage(0, |interpretation.rules|)
      && |r.traceabilityMatrix.ruleCoverage| == 0
         < |Coverage.DistinctIds(Coverage.RuleIds(interpretation.rules))|
  {
    var ids := Coverage.RuleIds(interpretation.rules);
    Coverage.DistinctIdsSpec(ids);
    assert ids[0] in Coverage.DistinctIds(ids);
  }
}
