/** Parsed JSON as the backend receives it from the language model: objects
    are ordered lists of entries (the order `json.loads` keeps). */
module JsonData {

  datatype Json =
    | JNull
    | JBool(b: bool)
    | JNum(n: real)
    | JStr(s: string)
    | JArr(items: seq<Json>)
    | JObj(entries: seq<(string, Json)>)

  /** `key in obj` */
  predicate Has(obj: seq<(string, Json)>, key: string)
  {
    exists i :: 0 <= i < |obj| && obj[i].0 == key
  }

  /** `obj[key]`, reading the first entry with that key. */
  function Get(obj: seq<(string, Json)>, key: string): (r: Json)
    requires Has(obj, key)
    ensures exists i :: 0 <= i < |obj| && obj[i] == (key, r)
  {
    if obj[0].0 == key then obj[0].1 else Get(obj[1..], key)
  }

  /** `obj.keys()` in order. */
  function Keys(obj: seq<(string, Json)>): (r: seq<string>)
    ensures |r| == |obj|
    ensures forall i :: 0 <= i < |obj| ==> r[i] == obj[i].0
  {
    if obj == [] then [] else [obj[0].0] + Keys(obj[1..])
  }

  /** Python truthiness: None, False, 0, "", [] and {} are false. */
  predicate Truthy(j: Json)
  {
    match j
    case JNull => false
    case JBool(b) => b
    case JNum(n) => n != 0.0
    case JStr(s) => s != ""
    case JArr(a) => a != []
    case JObj(e) => e != []
  }
}

/** The records of `backend/models/schemas.py`. */
module Schemas {
  import opened Common
  import opened JsonData

  datatype InterpretationStatus = OK | BLOCKED

  datatype Priority = HIGH | MEDIUM | LOW

  datatype Validity = VALID | INVALID

  /** An input parameter. `unit` and `description` are optional strings,
      the range bounds optional floats, `allowed_values` an optional list. */
  datatype InputDef = InputDef(
    name: string,
    dataType: string,
    unit: Option<string>,
    rangeMin: Option<real>,
    rangeMax: Option<real>,
    allowedValues: Option<seq<string>>,
    description: Option<string>)

  datatype OutputDef = OutputDef(
    name: string,
    dataType: string,
    unit: Option<string>,
    description: Option<string>,
    possibleValues: Option<seq<string>>)

  datatype Rule = Rule(ruleId: string, condition: string, expectedBehavior: string)

  datatype InterpretationResult = InterpretationResult(
    requirementId: string,
    status: InterpretationStatus,
    interpretedRequirement: string,
    rules: seq<Rule>,
    constraints: seq<string>,
    boundaryValues: seq<(string, Json)>,
    assumptions: seq<string>,
    ambiguities: seq<string>)

  datatype Traceability = Traceability(requirement: string, rule: string)

  datatype TestCase = TestCase(
    tcId: string,
    ruleId: string,
    testType: string,
    scenario: string,
    inputs: map<string, Value>,
    expectedOutput: map<string, Value>,
    priority: Priority,
    validity: Validity,
    traceability: Traceability)

  datatype CoverageReport = CoverageReport(
    requirementId: string,
    totalRules: nat,
    rulesCovered: nat,
    coveragePercentage: real,
    techniquesUsed: seq<string>,
    validTestCount: nat,
    invalidTestCount: nat,
    totalTestCount: nat)

  /** `rule_coverage` keeps the insertion order of the Python dict, which
      survives JSON into JavaScript's `Object.entries`. */
  datatype TraceabilityMatrix = TraceabilityMatrix(
    requirementId: string,
    ruleCoverage: seq<(string, seq<string>)>)

  datatype GenerateRequest = GenerateRequest(
    requirementId: string,
    requirementText: string,
    inputs: seq<InputDef>,
    outputs: seq<OutputDef>,
    apiKey: string)

  /** The endpoint's response; the generation timestamp is not modelled. */
  datatype GenerateResponse = GenerateResponse(
    interpretation: InterpretationResult,
    testCases: seq<TestCase>,
    traceabilityMatrix: TraceabilityMatrix,
    coverageReport: CoverageReport)

  /** `PriorityName`, `ValidityName`: the enum values as the JSON carries them. */
  function PriorityName(p: Priority): string
  {
    match p
    case HIGH => "HIGH"
    case MEDIUM => "MEDIUM"
    case LOW => "LOW"
  }

  function ValidityName(v: Validity): string
  {
    match v
    case VALID => "VALID"
    case INVALID => "INVALID"
  }

  /** The ids of a list of test cases, in order (`test_cases.map(tc => tc.tc_id)`). */
  function TcIds(tcs: seq<TestCase>): (r: seq<string>)
    ensures |r| == |tcs|
    ensures forall i :: 0 <= i < |tcs| ==> r[i] == tcs[i].tcId
  {
    seq(|tcs|, i requires 0 <= i < |tcs| => tcs[i].tcId)
  }

  /** Python truthiness of an optional list: present and non-empty. */
  predicate NonEmpty<T>(o: Option<seq<T>>)
  {
    o.Some? && |o.value| > 0
  }

  /** Python truthiness of an optional string. */
  predicate Filled(o: Option<string>)
  {
    o.Some? && o.value != ""
  }

  /** The lowercased `condition + " " + expected_behavior` the engines search
      for keywords. */
  function RuleText(rule: Rule): string
  {
    Lower(rule.condition + " " + rule.expectedBehavior)
  }

  /** `data_type.lower() in ['bool', 'boolean']` */
  predicate IsBoolType(dataType: string)
  {
    Lower(dataType) in ["bool", "boolean"]
  }
}
