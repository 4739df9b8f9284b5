/** `backend/services/test_strategy_engine.py`: which test techniques apply to
    each rule, chosen by keywords in the rule text and by the input types. */
module Strategy {
  import opened Common
  import opened JsonData
  import opened Schemas

  const NumericTypes: seq<string> := ["int", "integer", "float", "double", "number"]
  const PartitionWords: seq<string> := ["category", "type", "class", "partition"]
  const CompoundWords: seq<string> := [" and ", " or ", " && ", " || ", "both", "either"]
  const StateWords: seq<string> := ["state", "mode", "status", "phase", "transition"]

  predicate IsNumericType(dataType: string)
  {
    Lower(dataType) in NumericTypes
  }

  predicate HasNumericInput(inputs: seq<InputDef>)
  {
    exists i :: 0 <= i < |inputs| && IsNumericType(inputs[i].dataType)
  }

  predicate HasDiscreteInput(inputs: seq<InputDef>)
  {
    exists i :: 0 <= i < |inputs| && inputs[i].allowedValues.Some?
  }

  /** The five technique names the engine emits. */
  datatype Technique = BVA | EP | MCDC | STATE | NEGATIVE

  function TechniqueName(t: Technique): string
  {
    match t
    case BVA => "BVA"
    case EP => "EP"
    case MCDC => "MCDC"
    case STATE => "STATE"
    case NEGATIVE => "NEGATIVE"
  }

  /** Whether the engine appends `t` for this rule: BVA for a numeric input
      or boundary values; EP for allowed values, partition words or a
      numeric input; MCDC for compound words; STATE for state words;
      NEGATIVE always. `hasBoundaryValues` is the truthiness of the
      `boundary_values` dict. */
  predicate Chosen(t: Technique, rule: Rule, inputs: seq<InputDef>, hasBoundaryValues: bool)
  {
    var text := RuleText(rule);
    match t
    case BVA => HasNumericInput(inputs) || hasBoundaryValues
    case EP => HasDiscreteInput(inputs) || ContainsAny(text, PartitionWords) || HasNumericInput(inputs)
    case MCDC => ContainsAny(text, CompoundWords)
    case STATE => ContainsAny(text, StateWords)
    case NEGATIVE => true
  }

  /** `[t]` when `b` holds, else nothing. */
  function If(b: bool, t: Technique): (r: seq<Technique>)
    ensures t in r <==> b
    ensures |r| <= 1
  {
    if b then [t] else []
  }

  /** The techniques of one rule, in the order they are appended. */
  function Techniques(rule: Rule, inputs: seq<InputDef>, hasBoundaryValues: bool): (r: seq<Technique>)
    ensures 1 <= |r| <= 5 && r[|r| - 1] == NEGATIVE
  {
    If(Chosen(BVA, rule, inputs, hasBoundaryValues), BVA) +
    If(Chosen(EP, rule, inputs, hasBoundaryValues), EP) +
    If(Chosen(MCDC, rule, inputs, hasBoundaryValues), MCDC) +
    If(Chosen(STATE, rule, inputs, hasBoundaryValues), STATE) +
    [NEGATIVE]
  }

  /** Each technique occurs exactly once when its condition holds and never
      otherwise: the list has no duplicates, always holds NEGATIVE, and
      holds BVA, EP, MCDC or STATE exactly when its keywords or input types
      call for it. */
  lemma TechniquesExactlyWhenChosen(rule: Rule, inputs: seq<InputDef>, hasBoundaryValues: bool)
    ensures forall t :: (multiset(Techniques(rule, inputs, hasBoundaryValues))[t] ==
                         if Chosen(t, rule, inputs, hasBoundaryValues) then 1 else 0)
  {
    forall t
      ensures multiset(Techniques(rule, inputs, hasBoundaryValues))[t] ==
              if Chosen(t, rule, inputs, hasBoundaryValues) then 1 else 0
    {
      PiecesCount(Chosen(BVA, rule, inputs, hasBoundaryValues), Chosen(EP, rule, inputs, hasBoundaryValues),
                  Chosen(MCDC, rule, inputs, hasBoundaryValues), Chosen(STATE, rule, inputs, hasBoundaryValues), t);
    }
  }

  /** How often `t` occurs in the appended pieces. */
  lemma PiecesCount(bva: bool, ep: bool, mcdc: bool, state: bool, t: Technique)
    ensures multiset(If(bva, BVA) + If(ep, EP) + If(mcdc, MCDC) + If(state, STATE) + [NEGATIVE])[t] ==
            if (t == BVA && bva) || (t == EP && ep) || (t == MCDC && mcdc) || (t == STATE && state) || t == NEGATIVE
            then 1 else 0
  {
    IfCount(bva, BVA, t);
    IfCount(ep, EP, t);
    IfCount(mcdc, MCDC, t);
    IfCount(state, STATE, t);
  }

  lemma IfCount(b: bool, t: Technique, u: Technique)
    ensures multiset(If(b, t))[u] == if b && u == t then 1 else 0
  {
  }

  /** `i` is the last position in `rules` holding its rule id. */
  predicate LastWithId(rules: seq<Rule>, i: int)
    requires 0 <= i < |rules|
  {
    forall j :: i < j < |rules| ==> rules[j].ruleId != rules[i].ruleId
  }

  /** The strategy map after processing `rules` in order: each rule writes
      its own entry, overwriting an earlier rule with the same id. */
  function StrategyMap(rules: seq<Rule>, inputs: seq<InputDef>, hasBoundaryValues: bool): map<string, seq<Technique>>
  {
    if rules == [] then map[]
    else
      var last := rules[|rules| - 1];
      StrategyMap(rules[..|rules| - 1], inputs, hasBoundaryValues)[last.ruleId := Techniques(last, inputs, hasBoundaryValues)]
  }

  /** One entry per rule id: the keys are exactly the ids of the rules. */
  lemma {:induction false} StrategyMapKeys(rules: seq<Rule>, inputs: seq<InputDef>, hasBoundaryValues: bool)
    ensures forall id :: id in StrategyMap(rules, inputs, hasBoundaryValues) <==>
              exists i :: 0 <= i < |rules| && rules[i].ruleId == id
  {
    if rules != [] {
      var n := |rules| - 1;
      var init := rules[..n];
      StrategyMapKeys(init, inputs, hasBoundaryValues);
      forall id | id in StrategyMap(init, inputs, hasBoundaryValues)
        ensures exists i :: 0 <= i < |rules| && rules[i].ruleId == id
      {
        var i :| 0 <= i < n && init[i].ruleId == id;
        assert rules[i] == init[i];
      }
      forall id | exists i :: 0 <= i < |rules| && rules[i].ruleId == id
        ensures id in StrategyMap(rules, inputs, hasBoundaryValues)
      {
        var i :| 0 <= i < |rules| && rules[i].ruleId == id;
        if i < n {
          assert init[i] == rules[i];
        }
      }
    }
  }

  /** When ids repeat, the last rule with that id decides its techniques. */
  lemma {:induction false} StrategyMapLastWins(rules: seq<Rule>, inputs: seq<InputDef>, hasBoundaryValues: bool, i: nat)
    requires i < |rules| && LastWithId(rules, i)
    ensures rules[i].ruleId in StrategyMap(rules, inputs, hasBoundaryValues)
    ensures StrategyMap(rules, inputs, hasBoundaryValues)[rules[i].ruleId] == Techniques(rules[i], inputs, hasBoundaryValues)
  {
    var n := |rules| - 1;
    if i < n {
      var init := rules[..n];
      assert init[i] == rules[i];
      assert LastWithId(init, i);
      StrategyMapLastWins(init, inputs, hasBoundaryValues, i);
    }
  }

  /** `determine_strategies`: the strategy map over all rules. */
  method DetermineStrategies(rules: seq<Rule>, inputs: seq<InputDef>, boundaryValues: seq<(string, Json)>)
    returns (strategies: map<string, seq<Technique>>)
    ensures strategies == StrategyMap(rules, inputs, boundaryValues != [])
  {
    strategies := map[];
    var k := 0;
    while k < |rules|
      invariant 0 <= k <= |rules|
      invariant strategies == StrategyMap(rules[..k], inputs, boundaryValues != [])
    {
      var techniques := Techniques(rules[k], inputs, boundaryValues != []);
      assert rules[..k + 1][..k] == rules[..k];
      strategies := strategies[rules[k].ruleId := techniques];
      k := k + 1;
    }
    assert rules[..k] == rules;
  }
}
