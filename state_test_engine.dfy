/** `backend/services/state_test_engine.py`: one case per ordered pair of
    distinct states, then one invalid-state case. */
module StateTests {
  import opened Common
  import opened Schemas
  import opened Numbering

  const StateKeywords: seq<string> := ["state", "status", "mode", "phase"]
  const DefaultStates: seq<string> := ["INIT", "ACTIVE", "IDLE", "ERROR"]

  predicate IsStateName(name: string)
  {
    ContainsAny(Lower(name), StateKeywords)
  }

  /** `r` is the first input of `inputs` naming a state, or None if none does. */
  predicate FirstStateInput(inputs: seq<InputDef>, r: Option<InputDef>)
  {
    && (r.None? <==> forall i :: 0 <= i < |inputs| ==> !IsStateName(inputs[i].name))
    && (r.Some? ==> exists i :: 0 <= i < |inputs| && inputs[i] == r.value && IsStateName(r.value.name) &&
                                 forall j :: 0 <= j < i ==> !IsStateName(inputs[j].name))
  }

  /** `_find_state_variable` */
  function FindStateVariable(inputs: seq<InputDef>): (r: Option<InputDef>)
    ensures FirstStateInput(inputs, r)
  {
    if inputs == [] then None
    else if IsStateName(inputs[0].name) then Some(inputs[0])
    else
      var r := FindStateVariable(inputs[1..]);
      SearchPastHead(inputs, r);
      r
  }

  /** Skipping a head that names no state keeps the first match first. */
  lemma SearchPastHead(inputs: seq<InputDef>, r: Option<InputDef>)
    requires inputs != [] && !IsStateName(inputs[0].name)
    requires FirstStateInput(inputs[1..], r)
    ensures FirstStateInput(inputs, r)
  {
    assert forall i :: 1 <= i < |inputs| ==> inputs[i] == inputs[1..][i - 1];
    if r.Some? {
      var i :| 0 <= i < |inputs[1..]| && inputs[1..][i] == r.value && IsStateName(r.value.name) &&
               forall j :: 0 <= j < i ==> !IsStateName(inputs[1..][j].name);
      assert inputs[i + 1] == r.value;
      forall j | 0 <= j < i + 1 ensures !IsStateName(inputs[j].name) {
        if j > 0 { assert inputs[j] == inputs[1..][j - 1]; }
      }
    }
  }

  /** The states to walk: the allowed values, or the four defaults. */
  function States(d: InputDef): (r: seq<string>)
    ensures |r| > 0
  {
    if NonEmpty(d.allowedValues) then d.allowedValues.value else DefaultStates
  }

  /** The transitions out of `from`, in `tos` order, skipping `from` itself. */
  function Targets(from: string, tos: seq<string>): seq<(string, string)>
  {
    if tos == [] then []
    else
      var n := |tos| - 1;
      Targets(from, tos[..n]) + (if tos[n] != from then [(from, tos[n])] else [])
  }

  /** The nested loop order: every `from` in `froms`, then every target. */
  function Pairs(froms: seq<string>, states: seq<string>): seq<(string, string)>
  {
    if froms == [] then []
    else
      var n := |froms| - 1;
      Pairs(froms[..n], states) + Targets(froms[n], states)
  }

  lemma {:induction false} TargetsMembers(from: string, tos: seq<string>)
    ensures forall p :: p in Targets(from, tos) <==> p.0 == from && p.1 in tos && p.1 != from
  {
    if tos != [] {
      var n := |tos| - 1;
      TargetsMembers(from, tos[..n]);
      assert tos == tos[..n] + [tos[n]];
    }
  }

  /** Every ordered pair of different listed states is a transition, and
      nothing else is. */
  lemma {:induction false} PairsMembers(froms: seq<string>, states: seq<string>)
    ensures forall p :: p in Pairs(froms, states) <==> p.0 in froms && p.1 in states && p.0 != p.1
  {
    if froms != [] {
      var n := |froms| - 1;
      PairsMembers(froms[..n], states);
      TargetsMembers(froms[n], states);
      assert froms == froms[..n] + [froms[n]];
    }
  }

  predicate Distinct(s: seq<string>)
  {
    forall i, j :: 0 <= i < j < |s| ==> s[i] != s[j]
  }

  /** From a duplicate-free list, each state has one transition to each other state. */
  lemma {:induction false} TargetsCount(from: string, tos: seq<string>)
    requires Distinct(tos)
    ensures |Targets(from, tos)| == if from in tos then |tos| - 1 else |tos|
  {
    if tos != [] {
      var n := |tos| - 1;
      assert Distinct(tos[..n]);
      TargetsCount(from, tos[..n]);
      if tos[n] == from {
        assert from !in tos[..n];
      }
      assert from in tos <==> from in tos[..n] || from == tos[n];
    }
  }

  /** With n distinct states there are n * (n - 1) transition cases. */
  lemma {:induction false} PairsCount(froms: seq<string>, states: seq<string>)
    requires Distinct(states)
    requires forall i :: 0 <= i < |froms| ==> froms[i] in states
    ensures |Pairs(froms, states)| == |froms| * (|states| - 1)
  {
    if froms != [] {
      var n, k := |froms| - 1, |states| - 1;
      assert forall i :: 0 <= i < n ==> froms[..n][i] == froms[i];
      PairsCount(froms[..n], states);
      TargetsCount(froms[n], states);
      var a, b := Pairs(froms[..n], states), Targets(froms[n], states);
      assert |a| == n * k && |b| == k;
      assert Pairs(froms, states) == a + b;
      MulStep(n, k);
    }
  }

  lemma MulStep(n: nat, k: int)
    ensures n * k + k == (n + 1) * k
  {
  }

  /** The nominal values the other inputs get; inputs with neither a full
      range nor allowed values are left out of the map. */
  function OtherInputs(inputs: seq<InputDef>, stateName: string): (m: map<string, Value>)
    ensures stateName !in m
    ensures forall k :: k in m ==> exists i :: 0 <= i < |inputs| && inputs[i].name == k
  {
    if inputs == [] then map[]
    else
      var n := |inputs| - 1;
      var m := OtherInputs(inputs[..n], stateName);
      assert forall i :: 0 <= i < n ==> inputs[..n][i] == inputs[i];
      var d := inputs[n];
      if d.name == stateName then m
      else if d.rangeMin.Some? && d.rangeMax.Some? then m[d.name := VNum((d.rangeMin.value + d.rangeMax.value) / 2.0)]
      else if NonEmpty(d.allowedValues) then m[d.name := VStr(d.allowedValues.value[0])]
      else m
  }

  function TransitionCase(rule: Rule, inputs: seq<InputDef>, stateName: string, p: (string, string), req: string, n: nat): TestCase
  {
    TestCase(TcId(req, n), rule.ruleId, "State Transition", "Transition from " + p.0 + " to " + p.1,
             OtherInputs(inputs, stateName)[stateName := VStr(p.0)], map["next_state" := VStr(p.1)],
             MEDIUM, VALID, Traceability(req, rule.ruleId))
  }

  function InvalidStateCase(rule: Rule, stateName: string, req: string, n: nat): TestCase
  {
    TestCase(TcId(req, n), rule.ruleId, "State Transition", "Invalid state input",
             map[stateName := VStr("INVALID_STATE")], map["status" := VStr("REJECTED")],
             HIGH, INVALID, Traceability(req, rule.ruleId))
  }

  function TransitionCases(rule: Rule, inputs: seq<InputDef>, stateName: string, pairs: seq<(string, string)>, req: string, n: nat): (r: seq<TestCase>)
    ensures |r| == |pairs|
  {
    if pairs == [] then []
    else
      var k := |pairs| - 1;
      TransitionCases(rule, inputs, stateName, pairs[..k], req, n) + [TransitionCase(rule, inputs, stateName, pairs[k], req, n + k)]
  }

  /** The i-th transition case is the case for the i-th pair, numbered n + i. */
  lemma {:induction false} TransitionCasesAt(rule: Rule, inputs: seq<InputDef>, stateName: string, pairs: seq<(string, string)>, req: string, n: nat)
    ensures forall i :: 0 <= i < |pairs| ==>
      TransitionCases(rule, inputs, stateName, pairs, req, n)[i] == TransitionCase(rule, inputs, stateName, pairs[i], req, n + i)
  {
    if pairs != [] {
      var k := |pairs| - 1;
      TransitionCasesAt(rule, inputs, stateName, pairs[..k], req, n);
    }
  }

  /** The transition cases followed by the invalid-state case carry
      consecutive ids from `n` and trace to the rule. */
  lemma TransitionsThenInvalidNumbered(rule: Rule, inputs: seq<InputDef>, stateName: string, pairs: seq<(string, string)>,
                                       req: string, n: nat)
    ensures var r := TransitionCases(rule, inputs, stateName, pairs, req, n) + [InvalidStateCase(rule, stateName, req, n + |pairs|)];
      NumberedFrom(r, req, n) && TracesTo(r, req, rule.ruleId)
  {
    var t := TransitionCases(rule, inputs, stateName, pairs, req, n);
    TransitionCasesAt(rule, inputs, stateName, pairs, req, n);
    assert NumberedFrom(t, req, n) && TracesTo(t, req, rule.ruleId);
    SnocWellNumbered(t, InvalidStateCase(rule, stateName, req, n + |pairs|), req, rule.ruleId, n);
  }

  /** `generate_state_tests` as a value, numbered from `start`. */
  function StateCases(rule: Rule, inputs: seq<InputDef>, req: string, start: nat): seq<TestCase>
  {
    match FindStateVariable(inputs)
    case None => []
    case Some(d) =>
      var pairs := Pairs(States(d), States(d));
      TransitionCases(rule, inputs, d.name, pairs, req, start) + [InvalidStateCase(rule, d.name, req, start + |pairs|)]
  }

  /** Without a state variable there are no cases; otherwise the cases carry
      consecutive ids from `start` and trace to the rule. */
  lemma StateCasesNumbered(rule: Rule, inputs: seq<InputDef>, req: string, start: nat)
    ensures FindStateVariable(inputs).None? <==> StateCases(rule, inputs, req, start) == []
    ensures NumberedFrom(StateCases(rule, inputs, req, start), req, start)
    ensures TracesTo(StateCases(rule, inputs, req, start), req, rule.ruleId)
  {
    if FindStateVariable(inputs).Some? {
      var d := FindStateVariable(inputs).value;
      var pairs := Pairs(States(d), States(d));
      TransitionsThenInvalidNumbered(rule, inputs, d.name, pairs, req, start);
    }
  }

  /** One VALID, MEDIUM case per transition, starting in `from` and
      expecting `to`; then a single INVALID, HIGH case with the
      `INVALID_STATE` input expecting rejection. */
  lemma StateCasesShape(rule: Rule, inputs: seq<InputDef>, req: string, start: nat)
    requires FindStateVariable(inputs).Some?
    ensures var d := FindStateVariable(inputs).value;
      var pairs := Pairs(States(d), States(d));
      var r := StateCases(rule, inputs, req, start);
      && |r| == |pairs| + 1
      && (forall i :: 0 <= i < |pairs| ==>
            r[i].validity == VALID && r[i].priority == MEDIUM && r[i].testType == "State Transition" &&
            d.name in r[i].inputs && r[i].inputs[d.name] == VStr(pairs[i].0) &&
            r[i].expectedOutput == map["next_state" := VStr(pairs[i].1)])
      && r[|r| - 1].validity == INVALID && r[|r| - 1].priority == HIGH
      && r[|r| - 1].inputs == map[d.name := VStr("INVALID_STATE")]
      && r[|r| - 1].expectedOutput == map["status" := VStr("REJECTED")]
  {
    var d := FindStateVariable(inputs).value;
    var pairs := Pairs(States(d), States(d));
    var r := StateCases(rule, inputs, req, start);
    assert r == TransitionCases(rule, inputs, d.name, pairs, req, start) + [InvalidStateCase(rule, d.name, req, start + |pairs|)];
    TransitionCasesAt(rule, inputs, d.name, pairs, req, start);
    forall i | 0 <= i < |pairs|
      ensures r[i] == TransitionCase(rule, inputs, d.name, pairs[i], req, start + i)
    {
    }
  }

  /** With n distinct states the engine emits n * (n - 1) + 1 cases. */
  lemma StateCaseCount(rule: Rule, inputs: seq<InputDef>, req: string, start: nat)
    requires FindStateVariable(inputs).Some?
    requires Distinct(States(FindStateVariable(inputs).value))
    ensures var n := |States(FindStateVariable(inputs).value)|;
      |StateCases(rule, inputs, req, start)| == n * (n - 1) + 1
  {
    var states := States(FindStateVariable(inputs).value);
    PairsCount(states, states);
    StateCasesShape(rule, inputs, req, start);
  }

  /** `generate_state_tests`: the nested loops over states, then the invalid
      case, each case taking the next number from the shared counter. */
  method GenerateStateTests(rule: Rule, inputs: seq<InputDef>, req: string, counter: TcCounter) returns (cases: seq<TestCase>)
    modifies counter
    ensures cases == StateCases(rule, inputs, req, old(counter.count))
    ensures counter.count == old(counter.count) + |cases|
  {
    var found := FindStateVariable(inputs);
    if found.None? {
      return [];
    }
    var start := counter.count;
    var d := found.value;
    var states := States(d);
    var transitions := AppendTransitions(rule, inputs, d.name, states, req, counter);
    var id := counter.Next(req);
    var invalid := TestCase(id, rule.ruleId, "State Transition", "Invalid state input",
                            map[d.name := VStr("INVALID_STATE")], map["status" := VStr("REJECTED")],
                            HIGH, INVALID, Traceability(req, rule.ruleId));
    assert invalid == InvalidStateCase(rule, d.name, req, start + |transitions|);
    cases := transitions + [invalid];
  }

  /** The outer loop over `from` states. */
  method AppendTransitions(rule: Rule, inputs: seq<InputDef>, stateName: string, states: seq<string>, req: string, counter: TcCounter)
    returns (cases: seq<TestCase>)
    modifies counter
    ensures cases == TransitionCases(rule, inputs, stateName, Pairs(states, states), req, old(counter.count))
    ensures counter.count == old(counter.count) + |cases|
  {
    var start := counter.count;
    cases := [];
    var i := 0;
    while i < |states|
      invariant 0 <= i <= |states|
      invariant counter.count == start + |cases|
      invariant cases == TransitionCases(rule, inputs, stateName, Pairs(states[..i], states), req, start)
    {
      var targets := AppendTargets(rule, inputs, stateName, states[i], states, req, counter);
      TransitionsStep(rule, inputs, stateName, states, i, req, start, cases, targets);
      cases := cases + targets;
      i := i + 1;
    }
    assert states[..i] == states;
  }

  lemma PairsStep(states: seq<string>, i: nat)
    requires i < |states|
    ensures Pairs(states[..i + 1], states) == Pairs(states[..i], states) + Targets(states[i], states)
  {
    assert states[..i + 1][..i] == states[..i];
  }

  /** One step of the outer loop: the cases for `from = states[i]` extend
      the cases for the earlier `from` states. */
  lemma TransitionsStep(rule: Rule, inputs: seq<InputDef>, stateName: string, states: seq<string>, i: nat,
                        req: string, start: nat, cases: seq<TestCase>, targets: seq<TestCase>)
    requires i < |states|
    requires cases == TransitionCases(rule, inputs, stateName, Pairs(states[..i], states), req, start)
    requires targets == TransitionCases(rule, inputs, stateName, Targets(states[i], states), req, start + |cases|)
    ensures cases + targets == TransitionCases(rule, inputs, stateName, Pairs(states[..i + 1], states), req, start)
  {
    PairsStep(states, i);
    TransitionCasesAppend(rule, inputs, stateName, Pairs(states[..i], states), Targets(states[i], states), req, start);
  }

  lemma {:induction false} TransitionCasesAppend(rule: Rule, inputs: seq<InputDef>, stateName: string, a: seq<(string, string)>, b: seq<(string, string)>, req: string, n: nat)
    ensures TransitionCases(rule, inputs, stateName, a + b, req, n) ==
            TransitionCases(rule, inputs, stateName, a, req, n) + TransitionCases(rule, inputs, stateName, b, req, n + |a|)
  {
    if b != [] {
      var k := |b| - 1;
      var ab := a + b;
      assert ab[..|a| + k] == a + b[..k];
      assert ab[|a| + k] == b[k];
      TransitionCasesAppend(rule, inputs, stateName, a, b[..k], req, n);
      assert TransitionCases(rule, inputs, stateName, ab, req, n) ==
             TransitionCases(rule, inputs, stateName, a + b[..k], req, n) + [TransitionCase(rule, inputs, stateName, b[k], req, n + |a| + k)];
    } else {
      assert a + b == a;
    }
  }

  /** One step of the inner loop: a target other than `from` adds its case,
      numbered `m`, to the cases for the earlier targets. */
  lemma TargetsStep(rule: Rule, inputs: seq<InputDef>, stateName: string, from: string, states: seq<string>, j: nat,
                    req: string, start: nat, cases: seq<TestCase>, m: nat)
    requires j < |states|
    requires cases == TransitionCases(rule, inputs, stateName, Targets(from, states[..j]), req, start)
    requires m == start + |cases|
    ensures TransitionCases(rule, inputs, stateName, Targets(from, states[..j + 1]), req, start) ==
      if from != states[j] then cases + [TransitionCase(rule, inputs, stateName, (from, states[j]), req, m)] else cases
  {
    TargetsSnoc(from, states, j);
    if from != states[j] {
      TransitionCasesSnoc(rule, inputs, stateName, Targets(from, states[..j]), (from, states[j]), req, start);
    } else {
      assert Targets(from, states[..j + 1]) == Targets(from, states[..j]) + [];
      assert Targets(from, states[..j]) + [] == Targets(from, states[..j]);
    }
  }

  lemma TargetsSnoc(from: string, states: seq<string>, j: nat)
    requires j < |states|
    ensures Targets(from, states[..j + 1]) ==
      Targets(from, states[..j]) + (if states[j] != from then [(from, states[j])] else [])
  {
    assert states[..j + 1][..j] == states[..j];
  }

  lemma TransitionCasesSnoc(rule: Rule, inputs: seq<InputDef>, stateName: string, pairs: seq<(string, string)>, p: (string, string), req: string, n: nat)
    ensures TransitionCases(rule, inputs, stateName, pairs + [p], req, n) ==
      TransitionCases(rule, inputs, stateName, pairs, req, n) + [TransitionCase(rule, inputs, stateName, p, req, n + |pairs|)]
  {
    assert (pairs + [p])[..|pairs|] == pairs;
  }

  /** The inner loop: one case per target state other than `from`. */
  method AppendTargets(rule: Rule, inputs: seq<InputDef>, stateName: string, from: string, states: seq<string>, req: string, counter: TcCounter)
    returns (cases: seq<TestCase>)
    modifies counter
    ensures cases == TransitionCases(rule, inputs, stateName, Targets(from, states), req, old(counter.count))
    ensures counter.count == old(counter.count) + |cases|
  {
    var start := counter.count;
    cases := [];
    var j := 0;
    while j < |states|
      invariant 0 <= j <= |states|
      invariant counter.count == start + |cases|
      invariant cases == TransitionCases(rule, inputs, stateName, Targets(from, states[..j]), req, start)
    {
      var m := counter.count;
      TargetsStep(rule, inputs, stateName, from, states, j, req, start, cases, m);
      if from != states[j] {
        var id := counter.Next(req);
        var testInputs := OtherNominals(inputs, stateName);
        var tc := TestCase(id, rule.ruleId, "State Transition", "Transition from " + from + " to " + states[j],
                           testInputs[stateName := VStr(from)], map["next_state" := VStr(states[j])],
                           MEDIUM, VALID, Traceability(req, rule.ruleId));
        assert tc == TransitionCase(rule, inputs, stateName, (from, states[j]), req, m);
        cases := cases + [tc];
      }
      j := j + 1;
    }
    assert states[..j] == states;
  }

  /** The loop filling the other inputs' nominal values. */
  method OtherNominals(inputs: seq<InputDef>, stateName: string) returns (m: map<string, Value>)
    ensures m == OtherInputs(inputs, stateName)
  {
    m := map[];
    var k := 0;
    while k < |inputs|
      invariant 0 <= k <= |inputs|
      invariant m == OtherInputs(inputs[..k], stateName)
    {
      assert inputs[..k + 1][..k] == inputs[..k];
      var d := inputs[k];
      if d.name != stateName {
        if d.rangeMin.Some? && d.rangeMax.Some? {
          m := m[d.name := VNum((d.rangeMin.value + d.rangeMax.value) / 2.0)];
        } else if NonEmpty(d.allowedValues) {
          m := m[d.name := VStr(d.allowedValues.value[0])];
        }
      }
      k := k + 1;
    }
    assert inputs[..k] == inputs;
  }
}
