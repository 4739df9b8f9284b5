/** `backend/services/test_case_builder.py`: for every rule and every
    technique chosen for it, the test cases of that technique, numbered by one
    shared counter that starts at 1. Boundary, partition and negative cases
    are built here from candidate values; MC/DC and state cases come from
    their engines. */
module Builder {
  import opened Common
  import opened Schemas
  import opened Numbering
  import InputValues
  import Oracle
  import Mcdc
  import StateTests
  import opened Strategy

  // ---------------------------------------------------------------------
  // The values every case is built from.
  // ---------------------------------------------------------------------

  /** `_get_nominal_value`: the first allowed value, else the midpoint of the
      inferred range (truncated for integer inputs). `infer_range` always
      yields both bounds, so the `True` and `0` fallbacks are never taken. */
  function NominalValue(d: InputDef): Value
  {
    if NonEmpty(d.allowedValues) then VStr(d.allowedValues.value[0])
    else
      var rg := InputValues.InferRange(d);
      VNum(InputValues.Nominal(d, rg.0, rg.1))
  }

  /** The nominal value of an input without allowed values lies inside its
      range whenever a given range is ordered and, for integer inputs, has
      whole-number ends; an inferred range always qualifies. */
  lemma NominalInRange(d: InputDef)
    requires !NonEmpty(d.allowedValues)
    requires d.rangeMin.Some? && d.rangeMax.Some? ==>
      d.rangeMin.value <= d.rangeMax.value &&
      (InputValues.IsIntegerType(d.dataType) ==>
        InputValues.Integral(d.rangeMin.value) && InputValues.Integral(d.rangeMax.value))
    ensures InputValues.InRange(NominalValue(d), InputValues.InferRange(d).0, InputValues.InferRange(d).1)
  {
    var rg := InputValues.InferRange(d);
    assert rg.0 <= rg.1 && (InputValues.IsIntegerType(d.dataType) ==> InputValues.Integral(rg.0) && InputValues.Integral(rg.1));
    InputValues.NominalBetween(d, rg.0, rg.1);
  }

  /** `test_inputs = {inp.name: value}`, then `test_inputs[other.name] =
      nominal` for every input of `others` with a different name, in order:
      a repeated name keeps its first place and takes the last value. */
  function TestInputs(name: string, v: Value, others: seq<InputDef>): Entries
  {
    if others == [] then [(name, v)]
    else
      var n := |others| - 1;
      var e := TestInputs(name, v, others[..n]);
      if others[n].name != name then Put(e, others[n].name, NominalValue(others[n])) else e
  }

  /** The tested input keeps its value, and the keys are exactly the tested
      name and the names of the other inputs. */
  lemma TestInputsLookup(name: string, v: Value, others: seq<InputDef>)
    ensures Lookup(TestInputs(name, v, others), name) == Some(v)
    ensures forall k :: Lookup(TestInputs(name, v, others), k).Some? <==>
      (k == name || exists i :: 0 <= i < |others| && others[i].name == k)
  {
    TestedValueKept(name, v, others);
    forall k
      ensures Lookup(TestInputs(name, v, others), k).Some? <==>
        (k == name || exists i :: 0 <= i < |others| && others[i].name == k)
    {
      TestInputsKey(name, v, others, k);
    }
  }

  lemma {:induction false} TestedValueKept(name: string, v: Value, others: seq<InputDef>)
    ensures Lookup(TestInputs(name, v, others), name) == Some(v)
  {
    if others != [] {
      var n := |others| - 1;
      var e := TestInputs(name, v, others[..n]);
      TestedValueKept(name, v, others[..n]);
      if others[n].name != name {
        PutLookup(e, others[n].name, NominalValue(others[n]));
      }
    }
  }

  lemma {:induction false} TestInputsKey(name: string, v: Value, others: seq<InputDef>, k: string)
    ensures Lookup(TestInputs(name, v, others), k).Some? <==>
      (k == name || exists i :: 0 <= i < |others| && others[i].name == k)
  {
    if others != [] {
      var n := |others| - 1;
      var e := TestInputs(name, v, others[..n]);
      TestInputsKey(name, v, others[..n], k);
      if others[n].name != name {
        PutLookup(e, others[n].name, NominalValue(others[n]));
      }
      if exists i :: 0 <= i < |others| && others[i].name == k {
        var i :| 0 <= i < |others| && others[i].name == k;
        if i < n {
          assert others[..n][i].name == k;
        }
      }
      if exists i :: 0 <= i < n && others[..n][i].name == k {
        var i :| 0 <= i < n && others[..n][i].name == k;
        assert others[i].name == k;
      }
    }
  }

  /** Every other input gets the nominal value of the last input of that name. */
  lemma {:induction false} OtherInputNominal(name: string, v: Value, others: seq<InputDef>, i: nat)
    requires i < |others| && others[i].name != name
    requires forall j :: i < j < |others| ==> others[j].name != others[i].name
    ensures Lookup(TestInputs(name, v, others), others[i].name) == Some(NominalValue(others[i]))
  {
    var n := |others| - 1;
    var e := TestInputs(name, v, others[..n]);
    var p := NominalValue(others[n]);
    var t := TestInputs(name, v, others);
    var k := others[i].name;
    assert t == if others[n].name != name then Put(e, others[n].name, p) else e;
    if i < n {
      forall j | i < j < n ensures others[..n][j].name != others[..n][i].name {
        assert others[..n][j] == others[j];
      }
      OtherInputNominal(name, v, others[..n], i);
      assert others[..n][i] == others[i];
      assert Lookup(e, k) == Some(NominalValue(others[i]));
      if others[n].name != name {
        assert others[n].name != k;
        PutLookup(e, others[n].name, p);
        assert Lookup(t, k) == Lookup(e, k);
      }
    } else {
      PutLookup(e, others[n].name, p);
      assert Lookup(t, k) == Some(p);
    }
  }

  /** The loop that fills `test_inputs`. */
  method BuildTestInputs(name: string, v: Value, others: seq<InputDef>) returns (testInputs: Entries)
    ensures testInputs == TestInputs(name, v, others)
  {
    testInputs := [(name, v)];
    for j := 0 to |others|
      invariant testInputs == TestInputs(name, v, others[..j])
    {
      assert others[..j + 1][..j] == others[..j];
      if others[j].name != name {
        testInputs := Put(testInputs, others[j].name, NominalValue(others[j]));
      }
    }
    assert others[..|others|] == others;
  }

  // ---------------------------------------------------------------------
  // Boundary, partition and negative cases.
  // ---------------------------------------------------------------------

  /** The three techniques whose cases the builder makes from candidate values. */
  datatype Kind = Boundary | Partition | Negative

  /** What the builder asks of other code: the candidate values of
      `self.value_generator` for a technique, `self.oracle`'s expected output,
      and Python's `str` of a value for the scenario text. */
  datatype Collaborators = Collaborators(
    values: (Kind, InputDef) -> seq<InputValues.Candidate>,
    oracle: (Rule, Entries, seq<InputDef>, seq<OutputDef>, bool) -> map<string, Value>,
    render: Value -> string)

  /** `generate_bva_values`, `generate_ep_values`, `generate_negative_values`. */
  function GeneratedValues(kind: Kind, d: InputDef): seq<InputValues.Candidate>
  {
    match kind
    case Boundary => InputValues.BvaValues(d)
    case Partition => InputValues.EpValues(d)
    case Negative => InputValues.NegativeValues(d)
  }

  /** The collaborators the service wires up: the input value generator and
      the test oracle of this model. */
  function Standard(render: Value -> string): Collaborators
  {
    Collaborators(GeneratedValues, Oracle.ComputeExpectedOutput, render)
  }

  /** The oracle expects rejection for every invalid case. */
  ghost predicate OracleRejectsInvalid(svc: Collaborators)
  {
    forall rule, e, ins, outs :: svc.oracle(rule, e, ins, outs, false) == Rejected
  }

  lemma StandardRejectsInvalid(render: Value -> string)
    ensures OracleRejectsInvalid(Standard(render))
  {
  }

  /** The candidates for one input; BVA skips inputs that are not numeric. */
  function Candidates(svc: Collaborators, kind: Kind, d: InputDef): seq<InputValues.Candidate>
  {
    if kind == Boundary && !InputValues.IsNumericType(d.dataType) then [] else svc.values(kind, d)
  }

  function TestType(kind: Kind): string
  {
    match kind
    case Boundary => "Boundary Value Analysis"
    case Partition => "Equivalence Partitioning"
    case Negative => "Negative Testing"
  }

  function ScenarioPrefix(kind: Kind): string
  {
    match kind
    case Boundary => "BVA: "
    case Partition => "EP: "
    case Negative => "Negative: "
  }

  const Rejected: map<string, Value> := map["status" := VStr("REJECTED")]

  /** The case for candidate `c` of input `d`, numbered `n`. Negative cases
      expect rejection outright; the others ask the oracle. */
  function ValueCase(kind: Kind, rule: Rule, inputs: seq<InputDef>, outputs: seq<OutputDef>, req: string,
                     svc: Collaborators, d: InputDef, c: InputValues.Candidate, n: nat): TestCase
  {
    var testInputs := TestInputs(d.name, c.value, inputs);
    var isValid := c.validity == VALID;
    TestCase(TcId(req, n), rule.ruleId, TestType(kind),
             ScenarioPrefix(kind) + d.name + " = " + svc.render(c.value) + " (" + c.description + ")",
             ToMap(testInputs),
             if kind == Negative then Rejected else svc.oracle(rule, testInputs, inputs, outputs, isValid),
             if kind == Partition then MEDIUM else HIGH,
             if kind == Negative || !isValid then INVALID else VALID,
             Traceability(req, rule.ruleId))
  }

  /** The inputs map holds the tested value and one entry per input name. */
  lemma ValueCaseInputs(kind: Kind, rule: Rule, inputs: seq<InputDef>, outputs: seq<OutputDef>, req: string,
                        svc: Collaborators, d: InputDef, c: InputValues.Candidate, n: nat)
    ensures var tc := ValueCase(kind, rule, inputs, outputs, req, svc, d, c, n);
      && d.name in tc.inputs && tc.inputs[d.name] == c.value
      && (forall k :: k in tc.inputs <==> k == d.name || exists i :: 0 <= i < |inputs| && inputs[i].name == k)
  {
    var testInputs := TestInputs(d.name, c.value, inputs);
    TestInputsLookup(d.name, c.value, inputs);
    ToMapLookup(testInputs);
  }

  /** A boundary or partition case is INVALID exactly when its candidate is,
      a negative case always is, and an INVALID case expects rejection. */
  lemma ValueCaseVerdict(kind: Kind, rule: Rule, inputs: seq<InputDef>, outputs: seq<OutputDef>, req: string,
                         svc: Collaborators, d: InputDef, c: InputValues.Candidate, n: nat)
    ensures var tc := ValueCase(kind, rule, inputs, outputs, req, svc, d, c, n);
      && (kind != Negative ==> tc.validity == c.validity)
      && (kind == Negative ==> tc.validity == INVALID && tc.priority == HIGH)
      && (OracleRejectsInvalid(svc) && tc.validity == INVALID ==> tc.expectedOutput == Rejected)
  {
  }
  // ---------------------------------------------------------------------
  // What every block of cases promises.
  // ---------------------------------------------------------------------

  /** An INVALID case expects rejection. */
  predicate RejectsIfInvalid(tc: TestCase)
  {
    tc.validity == INVALID ==> tc.expectedOutput == Rejected
  }

  /** The case belongs to `ruleId` and traces to `(req, ruleId)`. */
  function OfRule(req: string, ruleId: string): TestCase -> bool
  {
    (tc: TestCase) => tc.ruleId == ruleId && tc.traceability == Traceability(req, ruleId)
  }

  /** A block numbered from `n` whose cases trace to `ruleId` and, when
      `rejecting`, expect rejection whenever they are INVALID. */
  ghost predicate WellFormedBlock(cases: seq<TestCase>, req: string, ruleId: string, rejecting: bool, n: nat)
  {
    NumberedFrom(cases, req, n) && Every(cases, OfRule(req, ruleId)) && (rejecting ==> Every(cases, RejectsIfInvalid))
  }

  /** Well-formed blocks chain into a well-formed block. */
  lemma ChainWellFormed<T>(xs: seq<T>, block: (T, nat) -> seq<TestCase>, req: string, ruleId: string, rejecting: bool, n: nat)
    requires forall x, m: nat :: x in xs ==> WellFormedBlock(block(x, m), req, ruleId, rejecting, m)
    ensures WellFormedBlock(Chain(xs, block, n), req, ruleId, rejecting, n)
  {
    ChainNumbered(xs, block, req, n);
    ChainEvery(xs, block, OfRule(req, ruleId), n);
    if rejecting {
      ChainEvery(xs, block, RejectsIfInvalid, n);
    }
  }

  // ---------------------------------------------------------------------
  // One technique's loops over inputs and candidates.
  // ---------------------------------------------------------------------

  /** The case of one candidate of input `d`, numbered `m`. */
  function CandidateBlock(kind: Kind, rule: Rule, inputs: seq<InputDef>, outputs: seq<OutputDef>, req: string,
                          svc: Collaborators, d: InputDef): (InputValues.Candidate, nat) -> seq<TestCase>
  {
    (c: InputValues.Candidate, m: nat) => [ValueCase(kind, rule, inputs, outputs, req, svc, d, c, m)]
  }

  /** The cases of all candidates of input `d`, numbered from `m`. */
  function InputCases(kind: Kind, rule: Rule, inputs: seq<InputDef>, outputs: seq<OutputDef>, req: string,
                      svc: Collaborators, d: InputDef, m: nat): seq<TestCase>
  {
    Chain(Candidates(svc, kind, d), CandidateBlock(kind, rule, inputs, outputs, req, svc, d), m)
  }

  function InputBlock(kind: Kind, rule: Rule, inputs: seq<InputDef>, outputs: seq<OutputDef>, req: string,
                      svc: Collaborators): (InputDef, nat) -> seq<TestCase>
  {
    (d: InputDef, m: nat) => InputCases(kind, rule, inputs, outputs, req, svc, d, m)
  }

  lemma InputBlockApply(kind: Kind, rule: Rule, inputs: seq<InputDef>, outputs: seq<OutputDef>, req: string,
                        svc: Collaborators, d: InputDef, m: nat)
    ensures InputBlock(kind, rule, inputs, outputs, req, svc)(d, m) == InputCases(kind, rule, inputs, outputs, req, svc, d, m)
  {
  }

  /** `_generate_bva_tests`, `_generate_ep_tests` or `_generate_negative_tests`
      as a value: every input in order, each with its candidates in order,
      numbered from `n`. */
  function KindCases(kind: Kind, rule: Rule, inputs: seq<InputDef>, outputs: seq<OutputDef>, req: string,
                     svc: Collaborators, n: nat): seq<TestCase>
  {
    Chain(inputs, InputBlock(kind, rule, inputs, outputs, req, svc), n)
  }

  lemma InputBlockWellFormed(kind: Kind, rule: Rule, inputs: seq<InputDef>, outputs: seq<OutputDef>, req: string,
                             svc: Collaborators, d: InputDef, m: nat)
    ensures WellFormedBlock(InputBlock(kind, rule, inputs, outputs, req, svc)(d, m), req, rule.ruleId, OracleRejectsInvalid(svc), m)
  {
    var blk := CandidateBlock(kind, rule, inputs, outputs, req, svc, d);
    forall c, m': nat | c in Candidates(svc, kind, d)
      ensures WellFormedBlock(blk(c, m'), req, rule.ruleId, OracleRejectsInvalid(svc), m')
    {
      ValueCaseVerdict(kind, rule, inputs, outputs, req, svc, d, c, m');
    }
    ChainWellFormed(Candidates(svc, kind, d), blk, req, rule.ruleId, OracleRejectsInvalid(svc), m);
  }

  /** The value-driven cases of a technique are consecutively numbered, trace
      to the rule and, with an oracle that rejects invalid input, expect
      rejection whenever they are INVALID. */
  lemma KindCasesWellFormed(kind: Kind, rule: Rule, inputs: seq<InputDef>, outputs: seq<OutputDef>, req: string,
                            svc: Collaborators, n: nat)
    ensures var r := KindCases(kind, rule, inputs, outputs, req, svc, n);
      && NumberedFrom(r, req, n) && TracesTo(r, req, rule.ruleId)
      && (OracleRejectsInvalid(svc) ==> forall i :: 0 <= i < |r| ==> RejectsIfInvalid(r[i]))
  {
    var blk := InputBlock(kind, rule, inputs, outputs, req, svc);
    forall d, m: nat | d in inputs
      ensures WellFormedBlock(blk(d, m), req, rule.ruleId, OracleRejectsInvalid(svc), m)
    {
      InputBlockWellFormed(kind, rule, inputs, outputs, req, svc, d, m);
    }
    ChainWellFormed(inputs, blk, req, rule.ruleId, OracleRejectsInvalid(svc), n);
  }

  /** One input's cases: its candidate values, then the inner loop over them. */
  method AppendValueCases(kind: Kind, rule: Rule, inputs: seq<InputDef>, outputs: seq<OutputDef>, req: string,
                          svc: Collaborators, d: InputDef, counter: TcCounter)
    returns (cases: seq<TestCase>)
    modifies counter
    ensures cases == InputCases(kind, rule, inputs, outputs, req, svc, d, old(counter.count))
    ensures counter.count == old(counter.count) + |cases|
  {
    var start := counter.count;
    var values := Candidates(svc, kind, d);
    ghost var blk := CandidateBlock(kind, rule, inputs, outputs, req, svc, d);
    cases := [];
    for k := 0 to |values|
      invariant cases == Chain(values[..k], blk, start)
      invariant counter.count == start + |cases|
    {
      var c := values[k];
      var m := counter.count;
      var id := counter.Next(req);
      var testInputs := BuildTestInputs(d.name, c.value, inputs);
      var isValid := c.validity == VALID;
      var expected, validity;
      if kind == Negative {
        expected, validity := Rejected, INVALID;
      } else {
        expected := svc.oracle(rule, testInputs, inputs, outputs, isValid);
        validity := if isValid then VALID else INVALID;
      }
      var tc := TestCase(id, rule.ruleId, TestType(kind),
                         ScenarioPrefix(kind) + d.name + " = " + svc.render(c.value) + " (" + c.description + ")",
                         ToMap(testInputs), expected,
                         if kind == Partition then MEDIUM else HIGH, validity,
                         Traceability(req, rule.ruleId));
      assert tc == ValueCase(kind, rule, inputs, outputs, req, svc, d, c, m);
      ChainStepAt(values, blk, start, k, cases, m, [tc]);
      cases := cases + [tc];
    }
    assert values[..|values|] == values;
  }

  /** The outer loop's step: one more input appends its cases. */
  lemma ValueTestsStep(kind: Kind, rule: Rule, inputs: seq<InputDef>, outputs: seq<OutputDef>, req: string,
                       svc: Collaborators, start: nat, i: nat, cases: seq<TestCase>, m: nat, more: seq<TestCase>)
    requires i < |inputs| && m == start + |cases|
    requires cases == Chain(inputs[..i], InputBlock(kind, rule, inputs, outputs, req, svc), start)
    requires more == InputCases(kind, rule, inputs, outputs, req, svc, inputs[i], m)
    ensures cases + more == Chain(inputs[..i + 1], InputBlock(kind, rule, inputs, outputs, req, svc), start)
  {
    InputBlockApply(kind, rule, inputs, outputs, req, svc, inputs[i], m);
    ChainStepAt(inputs, InputBlock(kind, rule, inputs, outputs, req, svc), start, i, cases, m, more);
  }

  /** The outer loop over the inputs, shared by the three generators. */
  method GenerateValueTests(kind: Kind, rule: Rule, inputs: seq<InputDef>, outputs: seq<OutputDef>, req: string,
                            svc: Collaborators, counter: TcCounter) returns (cases: seq<TestCase>)
    modifies counter
    ensures cases == KindCases(kind, rule, inputs, outputs, req, svc, old(counter.count))
    ensures counter.count == old(counter.count) + |cases|
  {
    var start := counter.count;
    ghost var blk := InputBlock(kind, rule, inputs, outputs, req, svc);
    cases := [];
    for i := 0 to |inputs|
      invariant cases == Chain(inputs[..i], blk, start)
      invariant counter.count == start + |cases|
    {
      var m := counter.count;
      var more := AppendValueCases(kind, rule, inputs, outputs, req, svc, inputs[i], counter);
      ValueTestsStep(kind, rule, inputs, outputs, req, svc, start, i, cases, m, more);
      cases := cases + more;
    }
    assert inputs[..|inputs|] == inputs;
  }

  // ---------------------------------------------------------------------
  // `build_test_cases`.
  // ---------------------------------------------------------------------

  /** The cases one technique contributes for a rule, numbered from `m`. */
  function TechniqueBlock(rule: Rule, inputs: seq<InputDef>, outputs: seq<OutputDef>, req: string,
                          svc: Collaborators): (Technique, nat) -> seq<TestCase>
  {
    (t: Technique, m: nat) =>
      match t
      case BVA => KindCases(Boundary, rule, inputs, outputs, req, svc, m)
      case EP => KindCases(Partition, rule, inputs, outputs, req, svc, m)
      case NEGATIVE => KindCases(Negative, rule, inputs, outputs, req, svc, m)
      case MCDC => Mcdc.McdcCases(rule, inputs, req, m)
      case STATE => StateTests.StateCases(rule, inputs, req, m)
  }

  /** `strategies.get(rule.rule_id, [])` */
  function RuleTechniques(strategies: map<string, seq<Technique>>, ruleId: string): seq<Technique>
  {
    if ruleId in strategies then strategies[ruleId] else []
  }

  /** The cases of one rule's techniques in order, numbered from `m`. */
  function RuleBlock(strategies: map<string, seq<Technique>>, inputs: seq<InputDef>, outputs: seq<OutputDef>,
                     req: string, svc: Collaborators): (Rule, nat) -> seq<TestCase>
  {
    (rule: Rule, m: nat) => Chain(RuleTechniques(strategies, rule.ruleId), TechniqueBlock(rule, inputs, outputs, req, svc), m)
  }

  /** `build_test_cases` as a value: the cases of every rule in order,
      numbered from `n`. */
  function AllCases(rules: seq<Rule>, strategies: map<string, seq<Technique>>, inputs: seq<InputDef>,
                    outputs: seq<OutputDef>, req: string, svc: Collaborators, n: nat): seq<TestCase>
  {
    Chain(rules, RuleBlock(strategies, inputs, outputs, req, svc), n)
  }

  function RuleIds(rules: seq<Rule>): set<string>
  {
    set r | r in rules :: r.ruleId
  }

  /** The case traces to the requirement and to one of `ids`. */
  function OfRules(req: string, ids: set<string>): TestCase -> bool
  {
    (tc: TestCase) => tc.traceability == Traceability(req, tc.ruleId) && tc.ruleId in ids
  }

  lemma KindBlockWellFormed(kind: Kind, rule: Rule, inputs: seq<InputDef>, outputs: seq<OutputDef>, req: string,
                            svc: Collaborators, m: nat)
    ensures WellFormedBlock(KindCases(kind, rule, inputs, outputs, req, svc, m), req, rule.ruleId, OracleRejectsInvalid(svc), m)
  {
    KindCasesWellFormed(kind, rule, inputs, outputs, req, svc, m);
  }

  lemma McdcBlockWellFormed(rule: Rule, inputs: seq<InputDef>, req: string, rejecting: bool, m: nat)
    ensures WellFormedBlock(Mcdc.McdcCases(rule, inputs, req, m), req, rule.ruleId, rejecting, m)
  {
    Mcdc.McdcCasesNumbered(rule, inputs, req, m);
    Mcdc.McdcCasesPriorities(rule, inputs, req, m);
  }

  lemma StateBlockWellFormed(rule: Rule, inputs: seq<InputDef>, req: string, rejecting: bool, m: nat)
    ensures WellFormedBlock(StateTests.StateCases(rule, inputs, req, m), req, rule.ruleId, rejecting, m)
  {
    StateTests.StateCasesNumbered(rule, inputs, req, m);
    if StateTests.FindStateVariable(inputs).Some? {
      StateTests.StateCasesShape(rule, inputs, req, m);
    }
  }

  /** Whatever the technique, its cases are consecutively numbered, trace to
      the rule and, with an oracle that rejects invalid input, expect
      rejection whenever they are INVALID. */
  lemma TechniqueBlockWellFormed(t: Technique, rule: Rule, inputs: seq<InputDef>, outputs: seq<OutputDef>, req: string,
                                 svc: Collaborators, m: nat)
    ensures WellFormedBlock(TechniqueBlock(rule, inputs, outputs, req, svc)(t, m), req, rule.ruleId, OracleRejectsInvalid(svc), m)
  {
    var r := TechniqueBlock(rule, inputs, outputs, req, svc)(t, m);
    var rejecting := OracleRejectsInvalid(svc);
    match t
    case BVA =>
      assert r == KindCases(Boundary, rule, inputs, outputs, req, svc, m);
      KindBlockWellFormed(Boundary, rule, inputs, outputs, req, svc, m);
    case EP =>
      assert r == KindCases(Partition, rule, inputs, outputs, req, svc, m);
      KindBlockWellFormed(Partition, rule, inputs, outputs, req, svc, m);
    case NEGATIVE =>
      assert r == KindCases(Negative, rule, inputs, outputs, req, svc, m);
      KindBlockWellFormed(Negative, rule, inputs, outputs, req, svc, m);
    case MCDC =>
      assert r == Mcdc.McdcCases(rule, inputs, req, m);
      McdcBlockWellFormed(rule, inputs, req, rejecting, m);
    case STATE =>
      assert r == StateTests.StateCases(rule, inputs, req, m);
      StateBlockWellFormed(rule, inputs, req, rejecting, m);
  }

  lemma RuleBlockWellFormed(strategies: map<string, seq<Technique>>, inputs: seq<InputDef>, outputs: seq<OutputDef>,
                            req: string, svc: Collaborators, rule: Rule, m: nat)
    ensures WellFormedBlock(RuleBlock(strategies, inputs, outputs, req, svc)(rule, m), req, rule.ruleId, OracleRejectsInvalid(svc), m)
  {
    var blk := TechniqueBlock(rule, inputs, outputs, req, svc);
    forall t, m': nat | t in RuleTechniques(strategies, rule.ruleId)
      ensures WellFormedBlock(blk(t, m'), req, rule.ruleId, OracleRejectsInvalid(svc), m')
    {
      TechniqueBlockWellFormed(t, rule, inputs, outputs, req, svc, m');
    }
    ChainWellFormed(RuleTechniques(strategies, rule.ruleId), blk, req, rule.ruleId, OracleRejectsInvalid(svc), m);
  }

  /** The whole suite is consecutively numbered from `n`, every case traces
      to the requirement and one of the rules, and, with an oracle that
      rejects invalid input, every INVALID case expects rejection. */
  lemma AllCasesWellFormed(rules: seq<Rule>, strategies: map<string, seq<Technique>>, inputs: seq<InputDef>,
                           outputs: seq<OutputDef>, req: string, svc: Collaborators, n: nat)
    ensures var r := AllCases(rules, strategies, inputs, outputs, req, svc, n);
      && NumberedFrom(r, req, n)
      && (forall i :: 0 <= i < |r| ==> r[i].traceability == Traceability(req, r[i].ruleId) && r[i].ruleId in RuleIds(rules))
      && (OracleRejectsInvalid(svc) ==> forall i :: 0 <= i < |r| ==> RejectsIfInvalid(r[i]))
  {
    var blk := RuleBlock(strategies, inputs, outputs, req, svc);
    var ids := RuleIds(rules);
    forall rule, m: nat | rule in rules
      ensures NumberedFrom(blk(rule, m), req, m)
      ensures Every(blk(rule, m), OfRules(req, ids))
      ensures OracleRejectsInvalid(svc) ==> Every(blk(rule, m), RejectsIfInvalid)
    {
      RuleBlockWellFormed(strategies, inputs, outputs, req, svc, rule, m);
    }
    ChainNumbered(rules, blk, req, n);
    ChainEvery(rules, blk, OfRules(req, ids), n);
    if OracleRejectsInvalid(svc) {
      ChainEvery(rules, blk, RejectsIfInvalid, n);
    }
  }

  /** The `if strategy == ...` dispatch for one technique. */
  method GenerateTechniqueTests(t: Technique, rule: Rule, inputs: seq<InputDef>, outputs: seq<OutputDef>, req: string,
                                svc: Collaborators, counter: TcCounter) returns (cases: seq<TestCase>)
    modifies counter
    ensures cases == TechniqueBlock(rule, inputs, outputs, req, svc)(t, old(counter.count))
    ensures counter.count == old(counter.count) + |cases|
  {
    match t
    case BVA => cases := GenerateValueTests(Boundary, rule, inputs, outputs, req, svc, counter);
    case EP => cases := GenerateValueTests(Partition, rule, inputs, outputs, req, svc, counter);
    case NEGATIVE => cases := GenerateValueTests(Negative, rule, inputs, outputs, req, svc, counter);
    case MCDC => cases := Mcdc.GenerateMcdcTests(rule, inputs, req, counter);
    case STATE => cases := StateTests.GenerateStateTests(rule, inputs, req, counter);
  }

  /** The loop over one rule's techniques. */
  method BuildRuleCases(rule: Rule, strategies: map<string, seq<Technique>>, inputs: seq<InputDef>, outputs: seq<OutputDef>,
                        req: string, svc: Collaborators, counter: TcCounter) returns (cases: seq<TestCase>)
    modifies counter
    ensures cases == RuleBlock(strategies, inputs, outputs, req, svc)(rule, old(counter.count))
    ensures counter.count == old(counter.count) + |cases|
  {
    var start := counter.count;
    var ts := RuleTechniques(strategies, rule.ruleId);
    ghost var blk := TechniqueBlock(rule, inputs, outputs, req, svc);
    cases := [];
    for k := 0 to |ts|
      invariant cases == Chain(ts[..k], blk, start)
      invariant counter.count == start + |cases|
    {
      var m := counter.count;
      var more := GenerateTechniqueTests(ts[k], rule, inputs, outputs, req, svc, counter);
      ChainStepAt(ts, blk, start, k, cases, m, more);
      cases := cases + more;
    }
    assert ts[..|ts|] == ts;
  }

  /** `build_test_cases`: one counter from 1 for the whole suite, the rules in
      order, each rule's techniques in order. The ids are pairwise distinct,
      every case traces to one of the rules and, with an oracle that rejects
      invalid input, every INVALID case expects rejection. */
  method BuildTestCases(rules: seq<Rule>, inputs: seq<InputDef>, outputs: seq<OutputDef>,
                        strategies: map<string, seq<Technique>>, req: string, svc: Collaborators)
    returns (testCases: seq<TestCase>)
    ensures testCases == AllCases(rules, strategies, inputs, outputs, req, svc, 1)
    ensures NumberedFrom(testCases, req, 1)
    ensures forall i :: 0 <= i < |testCases| ==>
      testCases[i].traceability == Traceability(req, testCases[i].ruleId) && testCases[i].ruleId in RuleIds(rules)
    ensures OracleRejectsInvalid(svc) ==> forall i :: 0 <= i < |testCases| ==> RejectsIfInvalid(testCases[i])
    ensures forall i, j :: 0 <= i < j < |testCases| ==> testCases[i].tcId != testCases[j].tcId
  {
    var counter := new TcCounter(1);
    ghost var blk := RuleBlock(strategies, inputs, outputs, req, svc);
    testCases := [];
    for i := 0 to |rules|
      invariant testCases == Chain(rules[..i], blk, 1)
      invariant counter.count == 1 + |testCases|
    {
      var m := counter.count;
      var more := BuildRuleCases(rules[i], strategies, inputs, outputs, req, svc, counter);
      ChainStepAt(rules, blk, 1, i, testCases, m, more);
      testCases := testCases + more;
    }
    assert rules[..|rules|] == rules;
    AllCasesWellFormed(rules, strategies, inputs, outputs, req, svc, 1);
    NumberedDistinct(testCases, req, 1);
  }
}
